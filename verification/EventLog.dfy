/** The proxy's asynchronous event sink: a bounded queue that drops instead of blocking, drained in
    order by one writer into one file per session. */
module EventLog {
  import opened Events

  datatype Record = Record(sessionId: string, event: Event)

  datatype Log = Log(capacity: nat, closed: bool, queue: seq<Record>, drops: nat, files: map<string, seq<Event>>)

  predicate IsIdChar(c: char) {
    'A' <= c <= 'Z' || 'a' <= c <= 'z' || '0' <= c <= '9' || c == '_' || c == '-'
  }

  function ToUpper(s: string): (u: string)
    ensures |u| == |s|
  {
    if s == "" then ""
    else [if 'a' <= s[0] <= 'z' then s[0] - 'a' + 'A' else s[0]] + ToUpper(s[1..])
  }

  /** `ValidSessionID`: 1 to 128 plain characters, and no Windows device name. */
  predicate ValidSessionID(id: string) {
    && 1 <= |id| <= 128
    && (forall i | 0 <= i < |id| :: IsIdChar(id[i]))
    && (var u := ToUpper(id);
        && u !in ["CON", "PRN", "AUX", "NUL"]
        && !(|u| == 4 && (u[..3] == "COM" || u[..3] == "LPT") && '1' <= u[3] <= '9'))
  }

  predicate Accepts(l: Log, sessionId: string) {
    !l.closed && ValidSessionID(sessionId) && |l.queue| < l.capacity
  }

  /** `Enqueue`: accept in order, or count a drop. */
  function EnqueueNext(l: Log, r: Record): Log {
    if Accepts(l, r.sessionId) then l.(queue := l.queue + [r]) else l.(drops := l.drops + 1)
  }

  function FileOf(l: Log, sessionId: string): seq<Event> {
    if sessionId in l.files then l.files[sessionId] else []
  }

  /** One turn of the writer loop: the oldest record is written, or lost to a disk or encoding error. */
  function DrainNext(l: Log, written: bool): Log
    requires l.queue != []
  {
    var r := l.queue[0];
    if written then
      l.(queue := l.queue[1..], files := l.files[r.sessionId := FileOf(l, r.sessionId) + [r.event]])
    else l.(queue := l.queue[1..], drops := l.drops + 1)
  }

  /** Draining the whole queue, with the fate of each record. */
  function DrainAll(l: Log, fates: seq<bool>): Log
    requires |fates| == |l.queue|
    decreases |l.queue|
  {
    if l.queue == [] then l else DrainAll(DrainNext(l, fates[0]), fates[1..])
  }

  const DEFAULT_CAPACITY: nat := 4096

  class Writer {
    const capacity: nat
    var closed: bool
    var queue: seq<Record>
    var drops: nat
    var files: map<string, seq<Event>>

    ghost function Now(): Log
      reads this
    {
      Log(capacity, closed, queue, drops, files)
    }

    /** `NewWriter`. */
    constructor (capacity: int)
      ensures Now() == Log(if capacity <= 0 then DEFAULT_CAPACITY else capacity, false, [], 0, map[])
    {
      this.capacity := if capacity <= 0 then DEFAULT_CAPACITY else capacity;
      closed, queue, drops, files := false, [], 0, map[];
    }

    /** `Enqueue`. */
    method Enqueue(sessionId: string, event: Event) returns (ok: bool)
      modifies this`queue, this`drops
      ensures Now() == EnqueueNext(old(Now()), Record(sessionId, event))
      ensures ok == Accepts(old(Now()), sessionId)
    {
      if closed || !ValidSessionID(sessionId) {
        drops := drops + 1;
        return false;
      }
      if |queue| < capacity {
        queue := queue + [Record(sessionId, event)];
        return true;
      }
      drops := drops + 1;
      return false;
    }

    /** One iteration of `run`; `written` says whether opening, encoding and writing all succeeded. */
    method DrainOne(written: bool)
      requires queue != []
      modifies this`queue, this`drops, this`files
      ensures Now() == DrainNext(old(Now()), written)
    {
      var rec := queue[0];
      queue := queue[1..];
      if !written {
        drops := drops + 1;
        return;
      }
      var file := if rec.sessionId in files then files[rec.sessionId] else [];
      files := files[rec.sessionId := file + [rec.event]];
    }

    /** `Close`: refuse new events, then let the writer drain what is queued. */
    method Close(fates: seq<bool>)
      requires |fates| == |queue|
      modifies this
      ensures Now() == DrainAll(old(Now()).(closed := true), fates) && closed && queue == []
    {
      closed := true;
      ghost var start := Now();
      var rest := fates;
      while queue != []
        invariant |rest| == |queue| && closed
        invariant DrainAll(start, fates) == DrainAll(Now(), rest)
        decreases |queue|
      {
        DrainOne(rest[0]);
        rest := rest[1..];
      }
    }
  }
}
