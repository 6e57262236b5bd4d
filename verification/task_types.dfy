/**
 * The task status and source enumerations of lib/types/task.ts and the
 * two functions that map the legacy database values onto them.
 */
module TaskTypes {
  import opened JsValues

  /** `TaskStatus` */
  datatype TaskStatus = Inbox | Waiting | Scheduled | InProgress | Completed | Delegated

  /** `TaskSource` */
  datatype TaskSource = Manual | Voice | Api

  /** The string literal of a status. */
  function StatusName(s: TaskStatus): string {
    match s
    case Inbox => "inbox"
    case Waiting => "waiting"
    case Scheduled => "scheduled"
    case InProgress => "in_progress"
    case Completed => "completed"
    case Delegated => "delegated"
  }

  /** The string literal of a source. */
  function SourceName(s: TaskSource): string {
    match s
    case Manual => "manual"
    case Voice => "voice"
    case Api => "api"
  }

  /**
   * `mapLegacyStatus`: `open` becomes inbox, `done` completed, `canceled`
   * delegated, `in_progress` stays; every other string, the modern
   * literals included, becomes inbox.
   */
  function MapLegacyStatus(legacy: string): (r: TaskStatus)
    ensures r == Completed <==> legacy == "done"
    ensures r == InProgress <==> legacy == "in_progress"
    ensures r == Delegated <==> legacy == "canceled"
    ensures r == Inbox <==> legacy != "done" && legacy != "in_progress" && legacy != "canceled"
    ensures r != Waiting && r != Scheduled
  {
    match legacy
    case "open" => Inbox
    case "done" => Completed
    case "in_progress" => InProgress
    case "canceled" => Delegated
    case _ => Inbox
  }

  /** Mapping a status's own literal gives it back only for inbox and in_progress. */
  lemma StatusRoundTrip(s: TaskStatus)
    ensures MapLegacyStatus(StatusName(s)) == s <==> s == Inbox || s == InProgress
  {
    if s == Completed {
      assert StatusName(s) != "done";
    }
    if s == Delegated {
      assert StatusName(s) != "canceled";
    }
  }

  /** Mapping twice is not mapping once: `done` maps to completed, then to inbox. */
  lemma MapLegacyStatusNotIdempotent()
    ensures MapLegacyStatus("done") == Completed
    ensures MapLegacyStatus(StatusName(MapLegacyStatus("done"))) == Inbox
  {
    assert StatusName(Completed) == "completed";
  }

  /**
   * `mapLegacySource`: `whatsapp` becomes voice, `import` api; everything
   * else, `null`, `undefined`, `voice` and `api` included, becomes manual.
   */
  function MapLegacySource(legacy: Value<string>): (r: TaskSource)
    ensures r == Voice <==> legacy == Defined("whatsapp")
    ensures r == Api <==> legacy == Defined("import")
    ensures r == Manual <==> legacy != Defined("whatsapp") && legacy != Defined("import")
  {
    match legacy
    case Defined("whatsapp") => Voice
    case Defined("manual") => Manual
    case Defined("import") => Api
    case _ => Manual
  }

  /** Mapping a source's own literal gives it back only for manual. */
  lemma SourceRoundTrip(s: TaskSource)
    ensures MapLegacySource(Defined(SourceName(s))) == s <==> s == Manual
  {
    if s == Voice {
      assert SourceName(s) != "whatsapp";
    }
    if s == Api {
      assert SourceName(s) != "import";
    }
  }
}
