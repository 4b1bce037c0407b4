// src/core/automation/admission-events.ts: the journal of admission decisions. Events
// go to one file per day; a cache of recent fingerprints suppresses repeats; both forget.
module Journal {
  import opened Basics
  import opened Capacity
  import opened Admission

  datatype Kind = PlannedEvent | SupersededEvent | Deferred | AdmittedEvent | SettledEvent | CapacityTransition

  datatype Event = Event(
    at: int, kind: Kind, source: Source, intentId: string, agent: Option<Agent>, occurrenceId: Option<string>,
    reason: string, retryAt: Option<int>)

  const DAY_MS := 24 * 60 * MINUTE
  const EVENT_RETENTION_MS := 7 * DAY_MS
  const DEDUPE_MS := 15 * MINUTE
  const DEDUPE_RETENTION_MS := Max(60 * MINUTE, DEDUPE_MS * 2)
  const MAX_READ_LIMIT := 2000
  const DEFAULT_READ_LIMIT := 200

  function KindName(k: Kind): string {
    match k
    case PlannedEvent => "planned"
    case SupersededEvent => "superseded"
    case Deferred => "deferred"
    case AdmittedEvent => "admitted"
    case SettledEvent => "settled"
    case CapacityTransition => "capacity-transition"
  }

  function AgentName(a: Agent): string {
    match a case Claude => "claude" case Codex => "codex"
  }

  function ShowNat(n: nat): (s: string)
    ensures s != "" && s[0] != '-'
  {
    if n < 10 then [('0' as int + n) as char] else ShowNat(n / 10) + [('0' as int + n % 10) as char]
  }

  function ShowInt(n: int): (s: string)
    ensures s != ""
  {
    if n < 0 then "-" + ShowNat(-n) else ShowNat(n)
  }

  function DedupeKey(e: Event): string {
    KindName(e.kind) + "|" + SourceName(e.source) + "|" + e.intentId + "|" + KeyTail(e)
  }

  lemma {:induction false} ShowNatInjective(m: nat, n: nat)
    ensures ShowNat(m) == ShowNat(n) ==> m == n
  {
    if ShowNat(m) == ShowNat(n) {
      assert ShowNat(m)[|ShowNat(m)| - 1] == ('0' as int + m % 10) as char;
      assert ShowNat(n)[|ShowNat(n)| - 1] == ('0' as int + n % 10) as char;
      if m >= 10 && n >= 10 {
        assert ShowNat(m)[..|ShowNat(m)| - 1] == ShowNat(m / 10);
        assert ShowNat(n)[..|ShowNat(n)| - 1] == ShowNat(n / 10);
        ShowNatInjective(m / 10, n / 10);
      }
    }
  }

  lemma ShowIntInjective(m: int, n: int)
    ensures ShowInt(m) == ShowInt(n) ==> m == n
  {
    if m < 0 {
      assert ShowInt(m)[0] == '-' && ShowInt(m)[1..] == ShowNat(-m);
    }
    if n < 0 {
      assert ShowInt(n)[0] == '-' && ShowInt(n)[1..] == ShowNat(-n);
    }
    ShowNatInjective(if m < 0 then -m else m, if n < 0 then -n else n);
  }

  function AgentPart(agent: Option<Agent>): string {
    if agent.Some? then AgentName(agent.value) else ""
  }

  // The part of the fingerprint behind the intent id.
  function KeyTail(e: Event): string {
    AgentPart(e.agent) + "|" + e.reason + "|"
    + (if e.retryAt.Some? then ShowInt(e.retryAt.value) else "")
  }

  lemma KindNamesDiffer(k: Kind, l: Kind)
    ensures '|' !in KindName(k) && '|' !in KindName(l)
    ensures KindName(k) == KindName(l) ==> k == l
  {
    if KindName(k) == KindName(l) {
      assert KindName(k)[0] == KindName(l)[0];
      assert |KindName(k)| == |KindName(l)|;
      assert KindName(k)[1] == KindName(l)[1];
    }
  }

  lemma SourceNameIsPlain(s: Source)
    ensures '|' !in SourceName(s)
  {
  }

  lemma AgentPartsDiffer(a: Option<Agent>, b: Option<Agent>)
    ensures '|' !in AgentPart(a) && '|' !in AgentPart(b)
    ensures AgentPart(a) == AgentPart(b) ==> a == b
  {
    if a.Some? && b.Some? && AgentPart(a) == AgentPart(b) { assert AgentName(a.value)[1] == AgentName(b.value)[1]; }
  }

  // The fields of an event that its fingerprint is made of.
  function FingerprintFields(e: Event): (Kind, Source, string, Option<Agent>, string, Option<int>) {
    (e.kind, e.source, e.intentId, e.agent, e.reason, e.retryAt)
  }

  function RetryPart(retryAt: Option<int>): string {
    if retryAt.Some? then ShowInt(retryAt.value) else ""
  }

  // The middle of a fingerprint: intent id, agent and reason.
  function KeyMiddle(e: Event): string {
    e.intentId + "|" + (AgentPart(e.agent) + "|" + e.reason)
  }

  lemma ShowNatIsPlain(n: nat)
    ensures '|' !in ShowNat(n)
  {
  }

  lemma RetryPartsDiffer(a: Option<int>, b: Option<int>)
    ensures '|' !in RetryPart(a) && '|' !in RetryPart(b)
    ensures RetryPart(a) == RetryPart(b) ==> a == b
  {
    if a.Some? { ShowNatIsPlain(if a.value < 0 then -a.value else a.value); }
    if b.Some? { ShowNatIsPlain(if b.value < 0 then -b.value else b.value); }
    if a.Some? && b.Some? { ShowIntInjective(a.value, b.value); }
  }

  lemma KeyParts(e: Event)
    ensures DedupeKey(e)
         == KindName(e.kind) + "|" + (SourceName(e.source) + "|" + (KeyMiddle(e) + "|" + RetryPart(e.retryAt)))
  {
    hide KindName, SourceName, AgentPart, ShowInt;
    var head := KindName(e.kind) + "|" + SourceName(e.source) + "|";
    assert KeyTail(e) == AgentPart(e.agent) + "|" + e.reason + "|" + RetryPart(e.retryAt);
    assert e.intentId + "|" + KeyTail(e) == KeyMiddle(e) + "|" + RetryPart(e.retryAt);
    assert DedupeKey(e) == head + (e.intentId + "|" + KeyTail(e));
  }

  // Kind, source and retry time are always told apart; the middle is what can be shared.
  lemma SameFingerprint(d: Event, e: Event)
    ensures DedupeKey(d) == DedupeKey(e) <==>
            d.kind == e.kind && d.source == e.source && d.retryAt == e.retryAt && KeyMiddle(d) == KeyMiddle(e)
  {
    KeyParts(d);
    KeyParts(e);
    hide *;
    if DedupeKey(d) == DedupeKey(e) {
      var x, y := KeyMiddle(d) + "|" + RetryPart(d.retryAt), KeyMiddle(e) + "|" + RetryPart(e.retryAt);
      KindNamesDiffer(d.kind, e.kind);
      FirstSeparatorSplitsOnce('|', KindName(d.kind), KindName(e.kind),
                               SourceName(d.source) + "|" + x, SourceName(e.source) + "|" + y);
      SourceNameIsPlain(d.source);
      SourceNameIsPlain(e.source);
      FirstSeparatorSplitsOnce('|', SourceName(d.source), SourceName(e.source), x, y);
      SourceNamesDiffer(d.source, e.source);
      RetryPartsDiffer(d.retryAt, e.retryAt);
      LastSeparatorSplitsOnce('|', KeyMiddle(d), KeyMiddle(e), RetryPart(d.retryAt), RetryPart(e.retryAt));
    }
  }

  // The intent id, or the reason, could be read as carrying an agent field of its own.
  ghost predicate HidesInId(id: string) {
    exists x: string, a: Option<Agent>, z: string :: AgentBehind(id, x, a, z)
  }

  predicate AgentBehind(id: string, x: string, a: Option<Agent>, z: string) {
    id == x + "|" + AgentPart(a) + z && (z == "" || z[0] == '|')
  }

  ghost predicate HidesInReason(reason: string) {
    exists z: string, a: Option<Agent>, y: string :: AgentAhead(reason, z, a, y)
  }

  predicate AgentAhead(reason: string, z: string, a: Option<Agent>, y: string) {
    reason == z + AgentPart(a) + "|" + y && (z == "" || z[|z| - 1] == '|')
  }

  ghost predicate Collides(d: Event) {
    exists e: Event :: DedupeKey(d) == DedupeKey(e) && FingerprintFields(d) != FingerprintFields(e)
  }

  // Two readings of one text, the first with the shorter intent id: the longer id
  // carries the first agent, the first reason the second one.
  lemma LongerIdHides(id: string, a: Option<Agent>, r: string, id': string, a': Option<Agent>, r': string)
    requires id + "|" + (AgentPart(a) + "|" + r) == id' + "|" + (AgentPart(a') + "|" + r') && |id| < |id'|
    ensures HidesInId(id') && HidesInReason(r)
  {
    hide AgentPart;
    AgentPartsDiffer(a, a');
    var z := LongerIdSplits(id, AgentPart(a), r, id', AgentPart(a'), r');
    assert AgentBehind(id', id, a, z);
    assert AgentAhead(r, if z == "" then "" else z[1..] + "|", a', r');
  }

  lemma LongerIdSplits(id: string, p: string, r: string, id': string, p': string, r': string) returns (z: string)
    requires id + "|" + (p + "|" + r) == id' + "|" + (p' + "|" + r') && |id| < |id'| && '|' !in p
    ensures id' == id + "|" + p + z && (z == "" || z[0] == '|')
    ensures r == (if z == "" then "" else z[1..] + "|") + p' + "|" + r'
  {
    var w := LongerIdRest(id, p + "|" + r, id', p' + "|" + r');
    PlainPrefix('|', p, r, w, p' + "|" + r');
    z := w[|p|..];
    assert w == p + z;
    assert id' == id + "|" + p + z;
    RestBehind(p, r, z, p' + "|" + r');
    assert z != "" ==> z[1..] + "|" + (p' + "|" + r') == (z[1..] + "|") + p' + "|" + r';
    assert z == "" ==> "" + p' + "|" + r' == p' + "|" + r';
  }

  lemma LongerIdRest(id: string, t: string, id': string, t': string) returns (w: string)
    requires id + "|" + t == id' + "|" + t' && |id| < |id'|
    ensures id' == id + "|" + w && t == w + "|" + t'
  {
    var s := id + "|" + t;
    w := id'[|id| + 1..];
    assert id' == s[..|id'|] && id == s[..|id|] && s[|id|] == '|';
    assert t == s[|id| + 1..];
  }

  lemma RestBehind(p: string, r: string, z: string, t: string)
    requires p + "|" + r == (p + z) + "|" + t && (z == "" || z[0] == '|')
    ensures r == if z == "" then t else z[1..] + "|" + t
  {
    assert (p + "|" + r)[|p| + 1..] == r;
    if z == "" {
      assert p + z == p;
    } else {
      assert ((p + z) + "|" + t)[|p| + 1..] == z[1..] + "|" + t;
    }
  }

  // A separator-free prefix up to its separator lies within any other one.
  lemma PlainPrefix(sep: char, p: string, r: string, w: string, t: string)
    requires sep !in p && p + [sep] + r == w + [sep] + t
    ensures p <= w && (|p| < |w| ==> w[|p|] == sep)
  {
    var s := p + [sep] + r;
    assert s[|w|] == sep && s[|p|] == sep;
    assert forall i :: 0 <= i < |p| ==> s[i] == p[i];
    assert forall i :: 0 <= i < |w| ==> s[i] == w[i];
  }

  lemma CollisionNeedsHiding(d: Event, e: Event)
    requires DedupeKey(d) == DedupeKey(e) && FingerprintFields(d) != FingerprintFields(e)
    ensures HidesInId(d.intentId) || HidesInReason(d.reason)
  {
    SameFingerprint(d, e);
    hide AgentPart, DedupeKey, HidesInId, HidesInReason;
    if |d.intentId| < |e.intentId| {
      LongerIdHides(d.intentId, d.agent, d.reason, e.intentId, e.agent, e.reason);
    } else if |e.intentId| < |d.intentId| {
      LongerIdHides(e.intentId, e.agent, e.reason, d.intentId, d.agent, d.reason);
    } else {
      assert KeyMiddle(d)[..|d.intentId|] == d.intentId && KeyMiddle(e)[..|e.intentId|] == e.intentId;
      assert KeyMiddle(d)[|d.intentId| + 1..] == AgentPart(d.agent) + "|" + d.reason;
      assert KeyMiddle(e)[|e.intentId| + 1..] == AgentPart(e.agent) + "|" + e.reason;
      AgentPartsDiffer(d.agent, e.agent);
      FirstSeparatorSplitsOnce('|', AgentPart(d.agent), AgentPart(e.agent), d.reason, e.reason);
    }
  }

  // One text read with the shorter and with the longer intent id.
  lemma Regroup(i: string, a: string, m: string, b: string, r: string)
    ensures i + "|" + (a + "|" + (m + "|" + b + "|" + r)) == (i + "|" + a + ("|" + m)) + "|" + (b + "|" + r)
    ensures i + "|" + (a + "|" + ((m + "|") + b + "|" + r)) == (i + "|" + a + "|" + m) + "|" + (b + "|" + r)
  {
  }

  lemma RegroupTwo(i: string, a: string, b: string, r: string)
    ensures i + "|" + (a + "|" + (b + "|" + r)) == (i + "|" + a + "") + "|" + (b + "|" + r)
    ensures i + "|" + (a + "|" + ("" + b + "|" + r)) == (i + "|" + a) + "|" + (b + "|" + r)
  {
  }

  lemma HiddenInIdCollides(d: Event, x: string, a: Option<Agent>, z: string)
    requires AgentBehind(d.intentId, x, a, z)
    ensures Collides(d)
  {
    hide AgentPart, DedupeKey;
    var p, q := AgentPart(a), AgentPart(d.agent);
    var reason := if z == "" then q + "|" + d.reason else z[1..] + "|" + q + "|" + d.reason;
    var e := d.(intentId := x, agent := a, reason := reason);
    if z == "" {
      RegroupTwo(x, p, q, d.reason);
    } else {
      assert z == "|" + z[1..];
      Regroup(x, p, z[1..], q, d.reason);
    }
    SameFingerprint(d, e);
    assert e.intentId != d.intentId;
  }

  lemma HiddenInReasonCollides(d: Event, z: string, a: Option<Agent>, y: string)
    requires AgentAhead(d.reason, z, a, y)
    ensures Collides(d)
  {
    hide AgentPart, DedupeKey;
    var p, q := AgentPart(a), AgentPart(d.agent);
    var id := if z == "" then d.intentId + "|" + q else d.intentId + "|" + q + "|" + z[..|z| - 1];
    var e := d.(intentId := id, agent := a, reason := y);
    if z == "" {
      RegroupTwo(d.intentId, q, p, y);
    } else {
      assert z == z[..|z| - 1] + "|";
      Regroup(d.intentId, q, z[..|z| - 1], p, y);
    }
    SameFingerprint(d, e);
    assert |e.intentId| > |d.intentId|;
  }

  // Main result: some different event has the fingerprint of this one exactly when its
  // intent id or its reason can be read as carrying an agent field.
  lemma CollisionCondition(d: Event)
    ensures Collides(d) <==> HidesInId(d.intentId) || HidesInReason(d.reason)
  {
    hide DedupeKey, AgentBehind, AgentAhead;
    if Collides(d) {
      var e: Event :| DedupeKey(d) == DedupeKey(e) && FingerprintFields(d) != FingerprintFields(e);
      CollisionNeedsHiding(d, e);
    }
    if HidesInId(d.intentId) {
      var x: string, a: Option<Agent>, z: string :| AgentBehind(d.intentId, x, a, z);
      HiddenInIdCollides(d, x, a, z);
    }
    if HidesInReason(d.reason) {
      var z: string, a: Option<Agent>, y: string :| AgentAhead(d.reason, z, a, y);
      HiddenInReasonCollides(d, z, a, y);
    }
  }

  // An event without the separator in its texts shares its fingerprint with no event
  // that differs in more than time and occurrence, whatever that event's texts are.
  lemma FingerprintsDistinguish(d: Event, e: Event)
    requires '|' !in d.intentId && '|' !in d.reason
    ensures DedupeKey(d) == DedupeKey(e) <==> FingerprintFields(d) == FingerprintFields(e)
  {
    if DedupeKey(d) == DedupeKey(e) && FingerprintFields(d) != FingerprintFields(e) {
      CollisionNeedsHiding(d, e);
      PlainHidesNothing(d.intentId);
      PlainHidesNothing(d.reason);
      assert false;
    }
    if FingerprintFields(d) == FingerprintFields(e) { SameFingerprint(d, e); }
  }

  lemma PlainHidesNothing(text: string)
    requires '|' !in text
    ensures !HidesInId(text) && !HidesInReason(text)
  {
    forall x: string, a: Option<Agent>, z: string ensures !AgentBehind(text, x, a, z) {
      assert (x + "|" + AgentPart(a) + z)[|x|] == '|';
    }
    forall z: string, a: Option<Agent>, y: string ensures !AgentAhead(text, z, a, y) {
      assert (z + AgentPart(a) + "|" + y)[|z + AgentPart(a)|] == '|';
    }
  }

  // With the separator in a text, different events can share a fingerprint, and the
  // second is suppressed although nothing like it was logged.
  lemma SeparatorMakesCollisions()
    ensures exists d: Event, e: Event :: DedupeKey(d) == DedupeKey(e) && d.intentId != e.intentId && d.agent == e.agent
  {
    var d := Event(0, Deferred, LoopEngineering, "a", Some(Claude), None, "x|claude|y", None);
    var e := Event(0, Deferred, LoopEngineering, "a|claude|x", Some(Claude), None, "y", None);
    assert DedupeKey(d) == DedupeKey(e);
  }

  // The day an event belongs to. A file is named after its day, and names sort as days do.
  datatype Day = Day(index: int)

  function DayOf(at: int): (day: int)
    ensures day * 86_400_000 <= at < (day + 1) * 86_400_000
  {
    at / DAY_MS
  }

  predicate BoundedString(s: string) {
    0 < |s| <= 300
  }

  // What a reader accepts. Writing does not check this.
  predicate Readable(e: Event) {
    && BoundedString(e.intentId) && BoundedString(e.reason)
    && (e.occurrenceId.Some? ==> BoundedString(e.occurrenceId.value))
  }

  type Files = map<Day, seq<Event>>
  type Dedupe = map<string, int>

  datatype State = State(files: Files, dedupe: Dedupe)

  const EMPTY := State(map[], map[])

  function FileOf(files: Files, day: int): seq<Event> {
    if Day(day) in files then files[Day(day)] else []
  }

  predicate Suppressed(s: State, e: Event) {
    var key := DedupeKey(e);
    key in s.dedupe && e.at >= s.dedupe[key] && e.at - s.dedupe[key] < DEDUPE_MS
  }

  predicate Forgettable(at: int, now: int) {
    at > now || now - at > DEDUPE_RETENTION_MS
  }

  function CleanedDedupe(dedupe: Dedupe, now: int): Dedupe {
    map k | k in dedupe && !Forgettable(dedupe[k], now) :: dedupe[k]
  }

  function CleanedFiles(files: Files, now: int): Files {
    map d | d in files && d.index >= DayOf(now - EVENT_RETENTION_MS) :: files[d]
  }

  function Written(s: State, e: Event): State {
    var day := DayOf(e.at);
    State(CleanedFiles(s.files[Day(day) := FileOf(s.files, day) + [e]], e.at),
          CleanedDedupe(s.dedupe[DedupeKey(e) := e.at], e.at))
  }

  function Appended(s: State, e: Event): State {
    if Suppressed(s, e) then s else Written(s, e)
  }

  predicate InWindow(e: Event, since: int, until: int) {
    since <= e.at <= until
  }

  // The records a read of a window returns.
  function Wanted(since: int, until: int): Event -> bool {
    (e: Event) => Readable(e) && InWindow(e, since, until)
  }

  function Unreadable(): Event -> bool {
    (e: Event) => !Readable(e)
  }

  predicate SortedByTime(es: seq<Event>) {
    forall i, j :: 0 <= i < j < |es| ==> es[i].at <= es[j].at
  }

  // A stable sort by time.
  function InsertByTime(e: Event, es: seq<Event>): (r: seq<Event>)
    requires SortedByTime(es)
    ensures SortedByTime(r)
    ensures forall x :: x in r <==> x == e || x in es
  {
    if es == [] || e.at <= es[0].at then [e] + es
    else
      var rest := InsertByTime(e, es[1..]);
      assert forall k :: 0 <= k < |rest| ==> rest[k] in rest;
      [es[0]] + rest
  }

  function SortByTime(es: seq<Event>): (r: seq<Event>)
    ensures SortedByTime(r)
  {
    if es == [] then [] else InsertByTime(es[0], SortByTime(es[1..]))
  }

  lemma {:induction false} InsertAddsOne(e: Event, es: seq<Event>)
    requires SortedByTime(es)
    ensures multiset(InsertByTime(e, es)) == multiset{e} + multiset(es)
  {
    if es != [] && es[0].at < e.at {
      InsertAddsOne(e, es[1..]);
      assert es == [es[0]] + es[1..];
    }
  }

  lemma {:induction false} SortIsPermutation(es: seq<Event>)
    ensures multiset(SortByTime(es)) == multiset(es)
  {
    if es != [] {
      SortIsPermutation(es[1..]);
      InsertAddsOne(es[0], SortByTime(es[1..]));
      assert es == [es[0]] + es[1..];
    }
  }

  lemma {:induction false} SortedStaysPut(es: seq<Event>)
    requires SortedByTime(es)
    ensures SortByTime(es) == es
  {
    if es != [] { SortedStaysPut(es[1..]); }
  }

  function LastOf(es: seq<Event>, limit: int): (r: seq<Event>)
    requires limit >= 1
    ensures |r| == Min(|es|, limit) && exists earlier :: es == earlier + r
  {
    assert |es| > limit ==> es == es[..|es| - limit] + es[|es| - limit..];
    assert es == [] + es;
    if |es| <= limit then es else es[|es| - limit..]
  }

  datatype ReadResult = ReadResult(events: seq<Event>, invalidRecords: nat, truncated: bool)

  function Limit(limit: Option<int>): (n: int)
    ensures 1 <= n <= 2000
    ensures limit.None? ==> n == 200
    ensures limit.Some? && 1 <= limit.value <= 2000 ==> n == limit.value
    ensures limit.Some? && limit.value < 1 ==> n == 1
    ensures limit.Some? && limit.value > 2000 ==> n == 2000
  {
    Max(1, Min(MAX_READ_LIMIT, match limit case None => DEFAULT_READ_LIMIT case Some(l) => l))
  }

  // The records of the files of the days from `first` to `last`, in order.
  function Scanned(files: Files, first: int, last: int): seq<Event>
    decreases last - first
  {
    if first > last then [] else FileOf(files, first) + Scanned(files, first + 1, last)
  }

  function ReadEvents(files: Files, since: int, until: int, limit: Option<int>): ReadResult {
    var records := Scanned(files, DayOf(since), DayOf(until));
    var events := SortByTime(Filter(Wanted(since, until), records));
    ReadResult(LastOf(events, Limit(limit)), |Filter(Unreadable(), records)|, |events| > Limit(limit))
  }

  // ---- The directory listing --------------------------------------------------------------

  ghost predicate Distinct(days: seq<Day>) {
    forall i, j :: 0 <= i < j < |days| ==> days[i] != days[j]
  }

  ghost predicate Ascending(days: seq<Day>) {
    forall i, j :: 0 <= i < j < |days| ==> days[i].index < days[j].index
  }

  function InRange(first: int, last: int): Day -> bool {
    (d: Day) => first <= d.index <= last
  }

  function InsertDay(d: Day, days: seq<Day>): seq<Day> {
    if days == [] || d.index <= days[0].index then [d] + days else [days[0]] + InsertDay(d, days[1..])
  }

  function SortDays(days: seq<Day>): seq<Day> {
    if days == [] then [] else InsertDay(days[0], SortDays(days[1..]))
  }

  lemma {:induction false} InsertDayKeeps(d: Day, days: seq<Day>)
    ensures forall x :: x in InsertDay(d, days) <==> x == d || x in days
    ensures Ascending(days) && d !in days ==> Ascending(InsertDay(d, days))
  {
    if days != [] && days[0].index < d.index {
      InsertDayKeeps(d, days[1..]);
      var rest := InsertDay(d, days[1..]);
      assert forall x :: x in days <==> x == days[0] || x in days[1..];
      assert forall k :: 0 <= k < |rest| ==> rest[k] in rest;
    }
  }

  lemma {:induction false} SortDaysKeeps(days: seq<Day>)
    ensures forall x :: x in SortDays(days) <==> x in days
    ensures Distinct(days) ==> Ascending(SortDays(days))
  {
    if days != [] {
      SortDaysKeeps(days[1..]);
      InsertDayKeeps(days[0], SortDays(days[1..]));
      assert forall x :: x in days <==> x == days[0] || x in days[1..];
    }
  }

  lemma {:induction false} FilterKeepsDistinct(p: Day -> bool, days: seq<Day>)
    requires Distinct(days)
    ensures Distinct(Filter(p, days))
  {
    if days != [] {
      FilterKeepsDistinct(p, days[1..]);
      FilterMembers(p, days[1..]);
      var rest := Filter(p, days[1..]);
      forall k | 0 <= k < |rest| ensures rest[k] != days[0] {
        assert rest[k] in days[1..];
      }
    }
  }

  // The filtered, sorted listing is the existing days of the range, in order.
  lemma ListedDays(names: seq<Day>, files: Files, first: int, last: int)
    requires Distinct(names) && forall d :: d in names <==> d in files
    ensures
      var days := SortDays(Filter(InRange(first, last), names));
      Ascending(days) && forall d :: d in days <==> d in files && first <= d.index <= last
  {
    FilterKeepsDistinct(InRange(first, last), names);
    FilterMembers(InRange(first, last), names);
    SortDaysKeeps(Filter(InRange(first, last), names));
  }

  function FilesOf(files: Files, days: seq<Day>): seq<Event> {
    if days == [] then [] else FileOf(files, days[0].index) + FilesOf(files, days[1..])
  }

  lemma FirstIsMember(days: seq<Day>)
    ensures days != [] ==> days[0] in days
  {
  }

  lemma LeastIsFirst(days: seq<Day>, d: Day)
    requires Ascending(days) && d in days && forall x :: x in days ==> d.index <= x.index
    ensures days[0] == d && forall x :: x in days[1..] <==> x in days && x != d
  {
    var k :| 0 <= k < |days| && days[k] == d;
    assert days[0] in days && k == 0;
    assert forall x :: x in days <==> x == days[0] || x in days[1..];
    forall i | 0 <= i < |days[1..]| ensures days[1..][i] != d {
      assert days[1..][i] == days[i + 1] && days[0].index < days[i + 1].index;
    }
  }

  // Reading the existing days of a range is reading all its days, the absent being empty.
  lemma {:induction false} SortedDaysScan(files: Files, days: seq<Day>, first: int, last: int)
    requires Ascending(days) && forall d :: d in days <==> d in files && first <= d.index <= last
    ensures FilesOf(files, days) == Scanned(files, first, last)
    decreases last - first
  {
    if first > last {
      FirstIsMember(days);
    } else if Day(first) in files {
      assert Day(first) in days;
      LeastIsFirst(days, Day(first));
      SortedDaysScan(files, days[1..], first + 1, last);
    } else {
      SortedDaysScan(files, days, first + 1, last);
    }
  }

  lemma ListingScans(names: seq<Day>, files: Files, first: int, last: int)
    requires Distinct(names) && forall d :: d in names <==> d in files
    ensures FilesOf(files, SortDays(Filter(InRange(first, last), names))) == Scanned(files, first, last)
  {
    ListedDays(names, files, first, last);
    SortedDaysScan(files, SortDays(Filter(InRange(first, last), names)), first, last);
  }

  lemma FilesOfStep(files: Files, days: seq<Day>, i: nat)
    requires i < |days|
    ensures FilesOf(files, days[i..]) == FileOf(files, days[i].index) + FilesOf(files, days[i + 1..])
  {
    assert days[i..][0] == days[i] && days[i..][1..] == days[i + 1..];
  }

  lemma FilesOfNone(files: Files, days: seq<Day>)
    ensures FilesOf(files, days[|days|..]) == []
  {
  }

  lemma FilterEmpty(p: Event -> bool)
    ensures Filter(p, []) == []
  {
  }

  class AdmissionJournal {
    var names: seq<Day>     // the day files, in directory order
    var files: Files
    var dedupe: Dedupe

    // The directory lists exactly the existing files, each once.
    ghost predicate Valid()
      reads this
    {
      Distinct(names) && forall d :: d in names <==> d in files
    }

    ghost function Value(): State
      reads this
    {
      State(files, dedupe)
    }

    constructor ()
      ensures Valid() && Value() == EMPTY
    {
      names, files, dedupe := [], map[], map[];
    }

    method CleanOldDedupeEntries(now: int)
      modifies this`dedupe
      ensures dedupe == CleanedDedupe(old(dedupe), now)
    {
      var keys := dedupe.Keys;
      while keys != {}
        invariant keys <= dedupe.Keys <= old(dedupe).Keys
        invariant forall k :: k in dedupe ==> dedupe[k] == old(dedupe)[k]
        invariant forall k :: k in old(dedupe) && k !in keys ==> (k in dedupe <==> !Forgettable(old(dedupe)[k], now))
        decreases keys
      {
        var k :| k in keys;
        if Forgettable(dedupe[k], now) { dedupe := dedupe - {k}; }
        keys := keys - {k};
      }
    }

    method CleanOldFiles(now: int)
      requires Valid()
      modifies this`names, this`files
      ensures Valid() && files == CleanedFiles(old(files), now)
    {
      var cutoff := DayOf(now - EVENT_RETENTION_MS);
      var i, kept := 0, [];
      while i < |names|
        invariant 0 <= i <= |names| && names == old(names)
        invariant Distinct(kept) && forall d :: d in kept <==> d in names[..i] && d.index >= cutoff
        invariant forall d :: d in files ==> d in old(files) && files[d] == old(files)[d]
        invariant forall d :: d in old(files) ==> (d in files <==> d.index >= cutoff || d !in names[..i])
      {
        var d := names[i];
        assert names[..i + 1] == names[..i] + [d];
        if d.index < cutoff {
          files := files - {d};
        } else {
          kept := kept + [d];
        }
        i := i + 1;
      }
      assert names[..i] == names;
      names := kept;
    }

    method Append(e: Event) returns (appended: bool)
      requires Valid()
      modifies this
      ensures Valid() && Value() == Appended(old(Value()), e)
      ensures appended <==> !Suppressed(old(Value()), e)
    {
      var fingerprint := DedupeKey(e);
      if fingerprint in dedupe && e.at >= dedupe[fingerprint] && e.at - dedupe[fingerprint] < DEDUPE_MS {
        return false;
      }
      var day := DayOf(e.at);
      if Day(day) !in files { names := names + [Day(day)]; }
      files := files[Day(day) := FileOf(files, day) + [e]];
      dedupe := dedupe[fingerprint := e.at];
      CleanOldDedupeEntries(e.at);
      CleanOldFiles(e.at);
      return true;
    }

    method Read(since: int, until: int, limit: Option<int>) returns (r: ReadResult)
      requires Valid()
      ensures r == ReadEvents(files, since, until, limit)
    {
      hide Filter, Scanned, Wanted, Unreadable, FileOf, FilesOf, SortDays, SortByTime, DayOf, InRange, Distinct;
      var days := SortDays(Filter(InRange(DayOf(since), DayOf(until)), names));
      assert FilesOf(files, days) == Scanned(files, DayOf(since), DayOf(until)) by {
        ListingScans(names, files, DayOf(since), DayOf(until));
      }
      var events: seq<Event> := [];
      var invalid := 0;
      var i := 0;
      ghost var wanted := Wanted(since, until);
      assert days[i..] == days;
      while i < |days|
        invariant 0 <= i <= |days|
        invariant events + Filter(wanted, FilesOf(files, days[i..])) == Filter(wanted, FilesOf(files, days))
        invariant invalid + |Filter(Unreadable(), FilesOf(files, days[i..]))|
               == |Filter(Unreadable(), FilesOf(files, days))|
      {
        var records := FileOf(files, days[i].index);
        FilesOfStep(files, days, i);
        FilterConcat(wanted, records, FilesOf(files, days[i + 1..]));
        FilterConcat(Unreadable(), records, FilesOf(files, days[i + 1..]));
        var kept, rejected := Sift(records, since, until);
        events, invalid := events + kept, invalid + rejected;
        i := i + 1;
      }
      FilesOfNone(files, days);
      FilterEmpty(wanted);
      FilterEmpty(Unreadable());
      assert events == Filter(wanted, FilesOf(files, days));
      events := SortByTime(events);
      return ReadResult(LastOf(events, Limit(limit)), invalid, |events| > Limit(limit));
    }
  }

  // The records of one file that count, and how many do not parse.
  method Sift(records: seq<Event>, since: int, until: int) returns (kept: seq<Event>, rejected: nat)
    ensures kept == Filter(Wanted(since, until), records)
    ensures rejected == |Filter(Unreadable(), records)|
  {
    kept, rejected := [], 0;
    var i := 0;
    while i < |records|
      invariant 0 <= i <= |records|
      invariant kept == Filter(Wanted(since, until), records[..i])
      invariant rejected == |Filter(Unreadable(), records[..i])|
    {
      var e := records[i];
      assert records[..i + 1] == records[..i] + [e];
      FilterConcat(Wanted(since, until), records[..i], [e]);
      FilterConcat(Unreadable(), records[..i], [e]);
      if !Readable(e) {
        rejected := rejected + 1;
      } else if InWindow(e, since, until) {
        kept := kept + [e];
      }
      i := i + 1;
    }
    assert records[..i] == records;
  }

  // ---- The log the journal stands for -----------------------------------------------------

  function RunJournal(es: seq<Event>): State {
    if es == [] then EMPTY else Appended(RunJournal(es[..|es| - 1]), es[|es| - 1])
  }

  // The events that are really written.
  function WrittenLog(es: seq<Event>): seq<Event> {
    if es == [] then []
    else
      var n := |es| - 1;
      WrittenLog(es[..n]) + if Suppressed(RunJournal(es[..n]), es[n]) then [] else [es[n]]
  }

  // ---- What the cache remembers --------------------------------------------------------------

  ghost predicate LastWritten(log: seq<Event>, key: string, i: int) {
    0 <= i < |log| && DedupeKey(log[i]) == key && forall j :: i < j < |log| ==> DedupeKey(log[j]) != key
  }

  // Nothing written since was older, or newer by more than the retention.
  ghost predicate StillCached(log: seq<Event>, i: int)
    requires 0 <= i < |log|
  {
    forall j :: i < j < |log| ==> log[i].at <= log[j].at <= log[i].at + DEDUPE_RETENTION_MS
  }

  ghost predicate Entry(log: seq<Event>, key: string, i: int) {
    0 <= i < |log| && LastWritten(log, key, i) && StillCached(log, i)
  }

  // The cache holds exactly the entries that nothing written since has made it forget.
  ghost predicate CacheExact(dedupe: Dedupe, log: seq<Event>) {
    && (forall k :: k in dedupe ==> exists i :: Entry(log, k, i) && log[i].at == dedupe[k])
    && (forall k, i :: Entry(log, k, i) ==> k in dedupe)
  }

  lemma EntryOfOther(log: seq<Event>, e: Event, k: string, i: int)
    requires k != DedupeKey(e)
    ensures Entry(log + [e], k, i) <==> Entry(log, k, i) && !Forgettable(log[i].at, e.at)
  {
    hide DedupeKey;
    var more := log + [e];
    assert more[|log|] == e;
    if 0 <= i < |log| {
      assert forall j :: 0 <= j < |log| ==> more[j] == log[j];
    }
  }

  lemma EntryOfSame(log: seq<Event>, e: Event, i: int)
    ensures Entry(log + [e], DedupeKey(e), i) <==> i == |log|
  {
    hide DedupeKey;
    assert (log + [e])[|log|] == e;
  }

  lemma LastWrittenUnique(log: seq<Event>, k: string, i: int, j: int)
    requires LastWritten(log, k, i) && LastWritten(log, k, j)
    ensures i == j
  {
  }

  lemma WrittenKeepsCache(s: State, log: seq<Event>, e: Event)
    requires CacheExact(s.dedupe, log)
    ensures CacheExact(Written(s, e).dedupe, log + [e])
  {
    hide DedupeKey, LastWritten, StillCached;
    var log', dedupe', key := log + [e], Written(s, e).dedupe, DedupeKey(e);
    forall k | k in dedupe' ensures exists i :: Entry(log', k, i) && log'[i].at == dedupe'[k] {
      if k == key {
        EntryOfSame(log, e, |log|);
        assert log'[|log|] == e;
      } else {
        var i :| Entry(log, k, i) && log[i].at == s.dedupe[k];
        EntryOfOther(log, e, k, i);
        EntryIndex(log, k, i);
        assert log'[i] == log[i];
      }
    }
    forall k, i | Entry(log', k, i) ensures k in dedupe' {
      if k != key {
        EntryOfOther(log, e, k, i);
        CachedTime(s.dedupe, log, k, i);
      }
    }
  }

  lemma EntryIndex(log: seq<Event>, k: string, i: int)
    requires Entry(log, k, i)
    ensures 0 <= i < |log| && DedupeKey(log[i]) == k
  {
  }

  lemma CachedTime(dedupe: Dedupe, log: seq<Event>, k: string, i: int)
    requires CacheExact(dedupe, log) && Entry(log, k, i)
    ensures 0 <= i < |log| && k in dedupe && dedupe[k] == log[i].at
  {
    var j :| Entry(log, k, j) && log[j].at == dedupe[k];
    LastWrittenUnique(log, k, i, j);
  }

  lemma {:induction false} JournalCache(es: seq<Event>)
    ensures CacheExact(RunJournal(es).dedupe, WrittenLog(es))
  {
    if es == [] {
      assert CacheExact(map[], []);
    } else {
      var n := |es| - 1;
      JournalCache(es[..n]);
      hide CacheExact, Written, Suppressed;
      if Suppressed(RunJournal(es[..n]), es[n]) {
        assert WrittenLog(es) == WrittenLog(es[..n]);
      } else {
        WrittenKeepsCache(RunJournal(es[..n]), WrittenLog(es[..n]), es[n]);
      }
    }
  }

  // An entry of the cache, at most a quarter of an hour before the event.
  ghost predicate RemembersRepeat(log: seq<Event>, e: Event) {
    exists i :: Entry(log, DedupeKey(e), i) && log[i].at <= e.at < log[i].at + DEDUPE_MS
  }

  lemma SuppressedIffRemembered(s: State, log: seq<Event>, e: Event)
    requires CacheExact(s.dedupe, log)
    ensures Suppressed(s, e) <==> RemembersRepeat(log, e)
  {
    hide DedupeKey, LastWritten, StillCached, CacheExact;
    var key := DedupeKey(e);
    if Suppressed(s, e) {
      CacheHasEntry(s.dedupe, log, key);
    }
    if RemembersRepeat(log, e) {
      var i :| Entry(log, key, i) && log[i].at <= e.at < log[i].at + DEDUPE_MS;
      CachedTime(s.dedupe, log, key, i);
    }
  }

  lemma CacheHasEntry(dedupe: Dedupe, log: seq<Event>, key: string)
    requires CacheExact(dedupe, log) && key in dedupe
    ensures exists i :: Entry(log, key, i) && log[i].at == dedupe[key]
  {
  }

  // ---- With times that do not go back -----------------------------------------------------------

  // An event with the same fingerprint was appended in the preceding quarter of an hour.
  ghost predicate RecentlyLogged(log: seq<Event>, e: Event) {
    exists i :: 0 <= i < |log| && DedupeKey(log[i]) == DedupeKey(e) && e.at - log[i].at < DEDUPE_MS
  }

  ghost function FlatLog(es: seq<Event>): seq<Event> {
    if es == [] then []
    else
      var log, e := FlatLog(es[..|es| - 1]), es[|es| - 1];
      if RecentlyLogged(log, e) then log else log + [e]
  }

  lemma {:induction false} LastWithKey(log: seq<Event>, key: string, m: nat) returns (i: nat)
    requires m < |log| && DedupeKey(log[m]) == key
    ensures m <= i && LastWritten(log, key, i)
    decreases |log| - m
  {
    hide DedupeKey;
    if j :| m < j < |log| && DedupeKey(log[j]) == key {
      i := LastWithKey(log, key, j);
    } else {
      i := m;
    }
  }

  // In a log in time order, what is remembered is exactly what is recent.
  lemma RecentIsRemembered(log: seq<Event>, e: Event)
    requires SortedByTime(log + [e])
    ensures RemembersRepeat(log, e) <==> RecentlyLogged(log, e)
  {
    hide DedupeKey;
    assert forall i :: 0 <= i < |log| ==> (log + [e])[i] == log[i] && log[i].at <= (log + [e])[|log|].at;
    if RecentlyLogged(log, e) {
      var m :| 0 <= m < |log| && DedupeKey(log[m]) == DedupeKey(e) && e.at - log[m].at < DEDUPE_MS;
      var i := LastWithKey(log, DedupeKey(e), m);
      assert Entry(log, DedupeKey(e), i) && log[m].at <= log[i].at <= e.at;
    }
  }

  lemma {:induction false} WrittenSorted(es: seq<Event>)
    requires SortedByTime(es)
    ensures SortedByTime(WrittenLog(es))
    ensures forall i :: 0 <= i < |WrittenLog(es)| ==> es != [] && WrittenLog(es)[i].at <= es[|es| - 1].at
  {
    hide Suppressed, RunJournal;
    if es != [] {
      var n := |es| - 1;
      WrittenSorted(es[..n]);
      forall i | 0 <= i < |WrittenLog(es[..n])| ensures WrittenLog(es[..n])[i].at <= es[n].at {
        assert n > 0 && es[..n][n - 1].at <= es[n].at;
      }
    }
  }

  lemma PrefixSorted(es: seq<Event>, e: Event)
    requires SortedByTime(es + [e])
    ensures SortedByTime(es) && SortedByTime(WrittenLog(es) + [e])
  {
    hide WrittenLog;
    assert forall i :: 0 <= i < |es| ==> (es + [e])[i] == es[i] && es[i].at <= (es + [e])[|es|].at;
    assert SortedByTime(es);
    WrittenSorted(es);
  }

  lemma SortedStep(es: seq<Event>, e: Event)
    requires SortedByTime(es + [e]) && WrittenLog(es) == FlatLog(es)
    ensures WrittenLog(es + [e]) == FlatLog(es + [e])
  {
    assert (es + [e])[..|es|] == es;
    PrefixSorted(es, e);
    JournalCache(es);
    hide DedupeKey, Suppressed, RunJournal, CacheExact, RecentlyLogged, RemembersRepeat, SortedByTime;
    SuppressedIffRemembered(RunJournal(es), WrittenLog(es), e);
    RecentIsRemembered(WrittenLog(es), e);
  }

  lemma {:induction false} SortedIsFlat(es: seq<Event>)
    requires SortedByTime(es)
    ensures WrittenLog(es) == FlatLog(es)
  {
    if es != [] {
      var n := |es| - 1;
      assert SortedByTime(es[..n]) && es[..n] + [es[n]] == es;
      hide WrittenLog, FlatLog, SortedByTime;
      SortedIsFlat(es[..n]);
      SortedStep(es[..n], es[n]);
    }
  }

  // Main result: an event is dropped exactly when the last written event with its
  // fingerprint is at most a quarter of an hour older and nothing written since has made
  // the cache forget it. When times do not go back, nothing that matters is forgotten: an
  // event is dropped exactly when one with its fingerprint was appended in the preceding
  // quarter of an hour.
  lemma AppendRefinesFlatLog(es: seq<Event>, e: Event)
    ensures Suppressed(RunJournal(es), e) <==> RemembersRepeat(WrittenLog(es), e)
    ensures WrittenLog(es + [e]) == WrittenLog(es) + if Suppressed(RunJournal(es), e) then [] else [e]
    ensures SortedByTime(es + [e]) ==>
              && WrittenLog(es) == FlatLog(es)
              && (Suppressed(RunJournal(es), e) <==> RecentlyLogged(FlatLog(es), e))
  {
    assert (es + [e])[..|es|] == es;
    JournalCache(es);
    SuppressedIffRemembered(RunJournal(es), WrittenLog(es), e);
    hide DedupeKey, Suppressed, RunJournal, RecentlyLogged, RemembersRepeat, WrittenLog, FlatLog;
    if SortedByTime(es + [e]) {
      PrefixSorted(es, e);
      SortedIsFlat(es);
      WrittenSorted(es);
      RecentIsRemembered(WrittenLog(es), e);
    }
  }

  // A late event makes the cache forget a newer one, and its repeat is written again.
  lemma LateEventForgets(d: Event, late: Event)
    requires late.at < d.at && DedupeKey(late) != DedupeKey(d)
    ensures Suppressed(RunJournal([d]), d.(at := d.at + 1))
    ensures !Suppressed(RunJournal([d, late]), d.(at := d.at + 1))
  {
    assert DedupeKey(d.(at := d.at + 1)) == DedupeKey(d);
    hide DedupeKey;
    assert [d][..0] == [] && [d, late][..1] == [d];
    assert RunJournal([d]).dedupe == map[DedupeKey(d) := d.at];
    assert DedupeKey(d) !in RunJournal([d, late]).dedupe;
  }

  // Every event offered to the journal, at whatever time, is written under its
  // fingerprint at most a quarter of an hour before its own time.
  lemma {:induction false} LoggedWithin(es: seq<Event>, e: Event) returns (k: nat)
    requires e in es
    ensures k < |WrittenLog(es)| && DedupeKey(WrittenLog(es)[k]) == DedupeKey(e)
    ensures WrittenLog(es)[k].at <= e.at < WrittenLog(es)[k].at + DEDUPE_MS
  {
    hide DedupeKey, LastWritten, StillCached;
    var n := |es| - 1;
    var log := WrittenLog(es[..n]);
    assert es[..n] + [es[n]] == es;
    AppendRefinesFlatLog(es[..n], es[n]);
    if e in es[..n] {
      k := LoggedWithin(es[..n], e);
      assert WrittenLog(es)[k] == log[k];
    } else if RemembersRepeat(log, e) {
      var i :| Entry(log, DedupeKey(e), i) && log[i].at <= e.at < log[i].at + DEDUPE_MS;
      EntryIndex(log, DedupeKey(e), i);
      k := i;
      assert WrittenLog(es)[k] == log[k];
    } else {
      k := |log|;
    }
  }

  // ---- What the files keep ----------------------------------------------------------------------

  function OnDay(day: int): Event -> bool {
    (e: Event) => DayOf(e.at) == day
  }

  function NotBefore(day: int): Event -> bool {
    (e: Event) => DayOf(e.at) >= day
  }

  // No event written later has put this one's day out of the retention.
  predicate Survives(log: seq<Event>, i: nat)
    requires i < |log|
  {
    forall j :: i < j < |log| ==> DayOf(log[j].at - EVENT_RETENTION_MS) <= DayOf(log[i].at)
  }

  function Survivors(log: seq<Event>, n: nat): seq<Event>
    requires n <= |log|
  {
    if n == 0 then [] else Survivors(log, n - 1) + if Survives(log, n - 1) then [log[n - 1]] else []
  }

  function Kept(log: seq<Event>): seq<Event> {
    Survivors(log, |log|)
  }

  lemma {:induction false} SurvivorsStep(log: seq<Event>, e: Event, n: nat)
    requires n <= |log|
    ensures Survivors(log + [e], n) == Filter(NotBefore(DayOf(e.at - EVENT_RETENTION_MS)), Survivors(log, n))
  {
    hide DayOf, Survives, Filter;
    if n == 0 {
      FilterEmpty(NotBefore(DayOf(e.at - EVENT_RETENTION_MS)));
    } else {
      SurvivorsStep(log, e, n - 1);
      SurvivesStep(log, e, n - 1);
      var cutoff := NotBefore(DayOf(e.at - EVENT_RETENTION_MS));
      FilterConcat(cutoff, Survivors(log, n - 1), if Survives(log, n - 1) then [log[n - 1]] else []);
      FilterOne(cutoff, log[n - 1]);
      FilterEmpty(cutoff);
    }
  }

  lemma SurvivesStep(log: seq<Event>, e: Event, i: nat)
    requires i < |log|
    ensures Survives(log + [e], i) <==> Survives(log, i) && DayOf(e.at - EVENT_RETENTION_MS) <= DayOf(log[i].at)
  {
    hide DayOf;
    var more := log + [e];
    assert more[|log|] == e && forall j :: 0 <= j < |log| ==> more[j] == log[j];
  }

  lemma KeptStep(log: seq<Event>, e: Event)
    ensures Kept(log + [e]) == Filter(NotBefore(DayOf(e.at - EVENT_RETENTION_MS)), Kept(log)) + [e]
  {
    hide DayOf;
    SurvivorsStep(log, e, |log|);
    assert Survives(log + [e], |log|);
  }

  lemma FilterOne(p: Event -> bool, e: Event)
    ensures Filter(p, [e]) == if p(e) then [e] else []
  {
  }

  lemma {:induction false} FilterNothing(log: seq<Event>)
    ensures Filter((e: Event) => false, log) == []
  {
    if log != [] { FilterNothing(log[1..]); }
  }

  lemma {:induction false} FilterTwice(p: Event -> bool, q: Event -> bool, es: seq<Event>)
    ensures Filter(p, Filter(q, es)) == Filter(e => q(e) && p(e), es)
  {
    if es != [] {
      FilterTwice(p, q, es[1..]);
      if q(es[0]) { assert Filter(q, es) == [es[0]] + Filter(q, es[1..]); }
    }
  }

  lemma FilterNever(p: Event -> bool, es: seq<Event>)
    requires forall e :: !p(e)
    ensures Filter(p, es) == []
  {
    FilterAgree(p, _ => false, es);
    FilterNothing(es);
  }

  // Each file holds exactly its day's part of what survives.
  ghost predicate FilesExact(files: Files, kept: seq<Event>) {
    forall d :: FileOf(files, d) == Filter(OnDay(d), kept)
  }

  lemma DaysMonotone(a: int, b: int)
    requires a <= b
    ensures DayOf(a) <= DayOf(b)
  {
  }

  lemma WrittenFile(s: State, e: Event, d: int)
    ensures FileOf(Written(s, e).files, d)
         == if d < DayOf(e.at - EVENT_RETENTION_MS) then []
            else if d == DayOf(e.at) then FileOf(s.files, d) + [e] else FileOf(s.files, d)
  {
    hide DayOf;
  }

  lemma FilterAfterCutoff(kept: seq<Event>, e: Event, d: int)
    ensures
      var cutoff := DayOf(e.at - EVENT_RETENTION_MS);
      Filter(OnDay(d), Filter(NotBefore(cutoff), kept) + [e])
      == (if d < cutoff then [] else Filter(OnDay(d), kept)) + (if d == DayOf(e.at) then [e] else [])
  {
    var cutoff := DayOf(e.at - EVENT_RETENTION_MS);
    hide DayOf, Filter;
    FilterConcat(OnDay(d), Filter(NotBefore(cutoff), kept), [e]);
    FilterOne(OnDay(d), e);
    FilterTwice(OnDay(d), NotBefore(cutoff), kept);
    if d < cutoff {
      FilterNever(x => NotBefore(cutoff)(x) && OnDay(d)(x), kept);
    } else {
      FilterAgree(x => NotBefore(cutoff)(x) && OnDay(d)(x), OnDay(d), kept);
    }
  }

  lemma WrittenKeepsFiles(s: State, log: seq<Event>, e: Event)
    requires FilesExact(s.files, Kept(log))
    ensures FilesExact(Written(s, e).files, Kept(log + [e]))
  {
    DaysMonotone(e.at - EVENT_RETENTION_MS, e.at);
    hide DayOf, Filter, Kept, Written, FileOf;
    KeptStep(log, e);
    forall d ensures FileOf(Written(s, e).files, d) == Filter(OnDay(d), Kept(log + [e])) {
      WrittenFile(s, e, d);
      FilterAfterCutoff(Kept(log), e, d);
    }
  }

  // The files stand for what survives of the written log, whatever the times.
  lemma {:induction false} JournalFiles(es: seq<Event>)
    ensures FilesExact(RunJournal(es).files, Kept(WrittenLog(es)))
  {
    if es != [] {
      var n := |es| - 1;
      JournalFiles(es[..n]);
      hide FilesExact, Written, Suppressed, Kept;
      if Suppressed(RunJournal(es[..n]), es[n]) {
        assert WrittenLog(es) == WrittenLog(es[..n]);
      } else {
        WrittenKeepsFiles(RunJournal(es[..n]), WrittenLog(es[..n]), es[n]);
      }
    }
  }

  lemma {:induction false} SurvivorIsKept(log: seq<Event>, n: nat, i: nat)
    requires i < n <= |log| && Survives(log, i)
    ensures log[i] in Survivors(log, n)
  {
    hide Survives;
    if i < n - 1 { SurvivorIsKept(log, n - 1, i); }
  }

  // Cleanup keeps every written event that no later one is more than seven days newer than.
  lemma RecentEventsAreKept(es: seq<Event>, i: nat)
    requires i < |WrittenLog(es)|
    ensures Survives(WrittenLog(es), i) ==>
              WrittenLog(es)[i] in FileOf(RunJournal(es).files, DayOf(WrittenLog(es)[i].at))
    ensures (forall j :: i < j < |WrittenLog(es)| ==>
               WrittenLog(es)[j].at - EVENT_RETENTION_MS <= WrittenLog(es)[i].at) ==>
              Survives(WrittenLog(es), i)
  {
    JournalFiles(es);
    var log := WrittenLog(es);
    hide DayOf, WrittenLog, RunJournal, FileOf;
    if Survives(log, i) {
      SurvivorIsKept(log, |log|, i);
      FilterMembers(OnDay(DayOf(log[i].at)), Kept(log));
    }
    if forall j :: i < j < |log| ==> log[j].at - EVENT_RETENTION_MS <= log[i].at {
      forall j | i < j < |log| ensures DayOf(log[j].at - EVENT_RETENTION_MS) <= DayOf(log[i].at) {
        DaysMonotone(log[j].at - EVENT_RETENTION_MS, log[i].at);
      }
    }
  }

  // ---- A stable sort depends only on the order within each time -----------------------------------

  function At(t: int): Event -> bool {
    (e: Event) => e.at == t
  }

  lemma {:induction false} InsertAt(e: Event, es: seq<Event>, t: int)
    requires SortedByTime(es)
    ensures Filter(At(t), InsertByTime(e, es)) == (if e.at == t then [e] else []) + Filter(At(t), es)
  {
    if es == [] || e.at <= es[0].at {
      assert ([e] + es)[1..] == es;
    } else {
      InsertAt(e, es[1..], t);
      assert ([es[0]] + InsertByTime(e, es[1..]))[1..] == InsertByTime(e, es[1..]);
    }
  }

  lemma {:induction false} SortAt(es: seq<Event>, t: int)
    ensures Filter(At(t), SortByTime(es)) == Filter(At(t), es)
  {
    if es != [] {
      SortAt(es[1..], t);
      InsertAt(es[0], SortByTime(es[1..]), t);
    }
  }

  lemma FirstOfTime(a: seq<Event>, b: seq<Event>)
    requires SortedByTime(b) && a != [] && forall t :: Filter(At(t), a) == Filter(At(t), b)
    ensures b != [] && b[0].at <= a[0].at
  {
    var t := a[0].at;
    FilterMembers(At(t), a);
    FilterMembers(At(t), b);
    assert a[0] in Filter(At(t), a);
    assert a[0] in b;
    var k :| 0 <= k < |b| && b[k] == a[0];
  }

  lemma {:induction false} SortedUnique(a: seq<Event>, b: seq<Event>)
    requires SortedByTime(a) && SortedByTime(b) && forall t :: Filter(At(t), a) == Filter(At(t), b)
    ensures a == b
  {
    if a == [] {
      if b != [] { FirstOfTime(b, a); }
    } else {
      FirstOfTime(a, b);
      FirstOfTime(b, a);
      var t := a[0].at;
      assert Filter(At(t), a)[0] == a[0] && Filter(At(t), b)[0] == b[0];
      forall u ensures Filter(At(u), a[1..]) == Filter(At(u), b[1..]) {
        assert Filter(At(u), a) == Filter(At(u), b);
        assert Filter(At(u), a) == (if a[0].at == u then [a[0]] else []) + Filter(At(u), a[1..]);
        assert Filter(At(u), b) == (if a[0].at == u then [a[0]] else []) + Filter(At(u), b[1..]);
        assert a[0].at == u ==> Filter(At(u), a)[1..] == Filter(At(u), a[1..]);
        assert a[0].at == u ==> Filter(At(u), b)[1..] == Filter(At(u), b[1..]);
      }
      SortedUnique(a[1..], b[1..]);
    }
  }

  lemma SameTimesSameSort(a: seq<Event>, b: seq<Event>)
    requires forall t :: Filter(At(t), a) == Filter(At(t), b)
    ensures SortByTime(a) == SortByTime(b)
  {
    hide Filter;
    forall t ensures Filter(At(t), SortByTime(a)) == Filter(At(t), SortByTime(b)) {
      SortAt(a, t);
      SortAt(b, t);
    }
    SortedUnique(SortByTime(a), SortByTime(b));
  }

  // ---- Reading a window ------------------------------------------------------------------------

  // Of the files of several days, what lies on one day is in that day's file.
  lemma {:induction false} ScannedOneDay(
    files: Files, kept: seq<Event>, first: int, last: int, d: int, p: Event -> bool)
    requires FilesExact(files, kept) && forall e :: p(e) ==> DayOf(e.at) == d
    ensures Filter(p, Scanned(files, first, last)) == if first <= d <= last then Filter(p, kept) else []
    decreases last - first
  {
    hide Filter, DayOf;
    if first > last {
      FilterEmpty(p);
    } else {
      ScannedOneDay(files, kept, first + 1, last, d, p);
      FilterConcat(p, FileOf(files, first), Scanned(files, first + 1, last));
      FilterTwice(p, OnDay(first), kept);
      if first == d {
        FilterAgree(e => OnDay(first)(e) && p(e), p, kept);
      } else {
        FilterNever(e => OnDay(first)(e) && p(e), kept);
      }
    }
  }

  // Scanning and sorting the days of a window sorts what survives of it.
  lemma ScanSorts(files: Files, kept: seq<Event>, since: int, until: int)
    requires FilesExact(files, kept)
    ensures SortByTime(Filter(Wanted(since, until), Scanned(files, DayOf(since), DayOf(until))))
         == SortByTime(Filter(Wanted(since, until), kept))
  {
    var wanted, scan := Wanted(since, until), Scanned(files, DayOf(since), DayOf(until));
    forall t ensures Filter(At(t), Filter(wanted, scan)) == Filter(At(t), Filter(wanted, kept)) {
      SameAtTime(files, kept, since, until, t);
    }
    hide Filter, FilesExact, Scanned;
    SameTimesSameSort(Filter(wanted, scan), Filter(wanted, kept));
  }

  lemma SameAtTime(files: Files, kept: seq<Event>, since: int, until: int, t: int)
    requires FilesExact(files, kept)
    ensures Filter(At(t), Filter(Wanted(since, until), Scanned(files, DayOf(since), DayOf(until))))
         == Filter(At(t), Filter(Wanted(since, until), kept))
  {
    hide Filter, FilesExact, Scanned, Readable, DayOf;
    var wanted, scan := Wanted(since, until), Scanned(files, DayOf(since), DayOf(until));
    var both: Event -> bool := e => wanted(e) && At(t)(e);
    FilterTwice(At(t), wanted, scan);
    FilterTwice(At(t), wanted, kept);
    if since <= t <= until {
      DaysMonotone(since, t);
      DaysMonotone(t, until);
      ScannedOneDay(files, kept, DayOf(since), DayOf(until), DayOf(t), both);
    } else {
      FilterNever(both, scan);
      FilterNever(both, kept);
    }
  }

  // The unreadable records of some days.
  function Bad(first: int, last: int): Event -> bool {
    (e: Event) => first <= DayOf(e.at) <= last && !Readable(e)
  }

  lemma {:induction false} CountSplits(p: Event -> bool, q: Event -> bool, r: Event -> bool, es: seq<Event>)
    requires forall e :: (r(e) <==> p(e) || q(e)) && !(p(e) && q(e))
    ensures |Filter(r, es)| == |Filter(p, es)| + |Filter(q, es)|
  {
    if es != [] { CountSplits(p, q, r, es[1..]); }
  }

  lemma {:induction false} ScanCountsBad(files: Files, kept: seq<Event>, first: int, last: int)
    requires FilesExact(files, kept)
    ensures |Filter(Unreadable(), Scanned(files, first, last))| == |Filter(Bad(first, last), kept)|
    decreases last - first
  {
    hide Filter, DayOf, Readable;
    if first > last {
      FilterEmpty(Unreadable());
      FilterNever(Bad(first, last), kept);
    } else {
      ScanCountsBad(files, kept, first + 1, last);
      FilterConcat(Unreadable(), FileOf(files, first), Scanned(files, first + 1, last));
      FilterTwice(Unreadable(), OnDay(first), kept);
      CountSplits(e => OnDay(first)(e) && Unreadable()(e), Bad(first + 1, last), Bad(first, last), kept);
    }
  }

  lemma {:induction false} NothingLost(log: seq<Event>, p: Event -> bool, n: nat)
    requires n <= |log| && forall i :: 0 <= i < n && p(log[i]) ==> Survives(log, i)
    ensures Filter(p, Survivors(log, n)) == Filter(p, log[..n])
  {
    hide Survives;
    if n > 0 {
      NothingLost(log, p, n - 1);
      assert log[..n] == log[..n - 1] + [log[n - 1]];
      FilterConcat(p, log[..n - 1], [log[n - 1]]);
      FilterConcat(p, Survivors(log, n - 1), if Survives(log, n - 1) then [log[n - 1]] else []);
      FilterOne(p, log[n - 1]);
    }
  }

  // Nothing written was more than the retention after the time.
  ghost predicate InsideRetention(log: seq<Event>, since: int) {
    forall j :: 0 <= j < |log| ==> log[j].at - EVENT_RETENTION_MS <= since
  }

  lemma WindowSurvives(log: seq<Event>, p: Event -> bool, since: int)
    requires InsideRetention(log, since) && forall e :: p(e) ==> DayOf(since) <= DayOf(e.at)
    ensures Filter(p, Kept(log)) == Filter(p, log)
  {
    hide DayOf, Filter, Survivors;
    forall i | 0 <= i < |log| && p(log[i]) ensures Survives(log, i) {
      forall j | i < j < |log| ensures DayOf(log[j].at - EVENT_RETENTION_MS) <= DayOf(log[i].at) {
        DaysMonotone(log[j].at - EVENT_RETENTION_MS, since);
      }
    }
    NothingLost(log, p, |log|);
    assert log[..|log|] == log;
  }

  lemma {:induction false} FilterKeepsOrder(p: Event -> bool, es: seq<Event>)
    requires SortedByTime(es)
    ensures SortedByTime(Filter(p, es))
  {
    if es != [] {
      FilterKeepsOrder(p, es[1..]);
      FilterMembers(p, es[1..]);
      var rest := Filter(p, es[1..]);
      forall k | 0 <= k < |rest| ensures es[0].at <= rest[k].at {
        assert rest[k] in es[1..];
      }
    }
  }

  // Main result: for every sequence of events, at whatever times, a read returns exactly
  // the last `limit` readable events of the window that survive, sorted by time, says
  // whether there were more, and counts the unreadable records of its days. For a window
  // inside the retention everything written survives; and when times do not go back, that
  // is the flat log, already in time order.
  lemma ReadRefinesFlatLog(es: seq<Event>, since: int, until: int, limit: Option<int>)
    ensures ReadsFrom(Kept(WrittenLog(es)), RunJournal(es).files, since, until, limit)
    ensures InsideRetention(WrittenLog(es), since) ==>
              ReadsFrom(WrittenLog(es), RunJournal(es).files, since, until, limit)
    ensures SortedByTime(es) ==>
              WrittenLog(es) == FlatLog(es)
              && SortByTime(Filter(Wanted(since, until), FlatLog(es))) == Filter(Wanted(since, until), FlatLog(es))
  {
    ReadsSurvivors(es, since, until, limit);
    hide *;
    if InsideRetention(WrittenLog(es), since) { ReadsInsideRetention(es, since, until, limit); }
    if SortedByTime(es) { SortedWindow(es, since, until); }
  }

  lemma ReadsSurvivors(es: seq<Event>, since: int, until: int, limit: Option<int>)
    ensures ReadsFrom(Kept(WrittenLog(es)), RunJournal(es).files, since, until, limit)
  {
    JournalFiles(es);
    var kept, files := Kept(WrittenLog(es)), RunJournal(es).files;
    ScanSorts(files, kept, since, until);
    ScanCountsBad(files, kept, DayOf(since), DayOf(until));
    hide Filter, Scanned, DayOf, Kept, SortByTime, WrittenLog, RunJournal, FilesExact, Readable, LastOf, Limit;
  }

  lemma ReadsInsideRetention(es: seq<Event>, since: int, until: int, limit: Option<int>)
    requires InsideRetention(WrittenLog(es), since)
    ensures ReadsFrom(WrittenLog(es), RunJournal(es).files, since, until, limit)
  {
    hide Filter, DayOf, Kept, SortByTime, WrittenLog, RunJournal, ReadEvents, InsideRetention, Readable, LastOf, Limit;
    ReadsSurvivors(es, since, until, limit);
    forall e | Wanted(since, until)(e) ensures DayOf(since) <= DayOf(e.at) { DaysMonotone(since, e.at); }
    WindowSurvives(WrittenLog(es), Wanted(since, until), since);
    WindowSurvives(WrittenLog(es), Bad(DayOf(since), DayOf(until)), since);
  }

  lemma SortedWindow(es: seq<Event>, since: int, until: int)
    requires SortedByTime(es)
    ensures WrittenLog(es) == FlatLog(es)
    ensures SortByTime(Filter(Wanted(since, until), FlatLog(es))) == Filter(Wanted(since, until), FlatLog(es))
  {
    SortedIsFlat(es);
    WrittenSorted(es);
    hide *;
    FilterKeepsOrder(Wanted(since, until), WrittenLog(es));
    SortedStaysPut(Filter(Wanted(since, until), WrittenLog(es)));
  }

  // What is read, event by event: the returned events are surviving ones of the window
  // with texts of 1 to 300 characters, and an untruncated read returns all of those.
  lemma WhatIsReturned(es: seq<Event>, since: int, until: int, limit: Option<int>, e: Event)
    ensures
      var r := ReadEvents(RunJournal(es).files, since, until, limit);
      var readable :=
        && 0 < |e.intentId| <= 300 && 0 < |e.reason| <= 300
        && (e.occurrenceId.Some? ==> 0 < |e.occurrenceId.value| <= 300);
      && (e in r.events ==> e in Kept(WrittenLog(es)) && since <= e.at <= until && readable)
      && (!r.truncated && e in Kept(WrittenLog(es)) && since <= e.at <= until && readable ==> e in r.events)
  {
    hide Filter, SortByTime, ReadEvents, Kept, WrittenLog, RunJournal, LastOf, Limit;
    ReadsSurvivors(es, since, until, limit);
    var found := SortByTime(Filter(Wanted(since, until), Kept(WrittenLog(es))));
    FilterMembers(Wanted(since, until), Kept(WrittenLog(es)));
    SortKeepsMembers(Filter(Wanted(since, until), Kept(WrittenLog(es))), e);
    LastIsPart(found, Limit(limit), e);
  }

  lemma SortKeepsMembers(es: seq<Event>, e: Event)
    ensures e in SortByTime(es) <==> e in es
  {
    SortIsPermutation(es);
    assert e in SortByTime(es) <==> e in multiset(SortByTime(es));
    assert e in es <==> e in multiset(es);
  }

  lemma LastIsPart(es: seq<Event>, limit: int, e: Event)
    requires limit >= 1
    ensures e in LastOf(es, limit) ==> e in es
    ensures |es| <= limit && e in es ==> e in LastOf(es, limit)
  {
  }

  // What a read returns, if the files stand for this log.
  ghost predicate ReadsFrom(log: seq<Event>, files: Files, since: int, until: int, limit: Option<int>) {
    var wanted := SortByTime(Filter(Wanted(since, until), log));
    var r := ReadEvents(files, since, until, limit);
    && r.events == LastOf(wanted, Limit(limit))
    && (r.truncated <==> |wanted| > Limit(limit))
    && r.invalidRecords == |Filter(Bad(DayOf(since), DayOf(until)), log)|
  }

  // Nothing of a window is lost exactly when all its logged events are readable.
  lemma {:induction false} ReadLosesUnreadable(log: seq<Event>, since: int, until: int)
    ensures Filter(Wanted(since, until), log) == Filter(e => InWindow(e, since, until), log)
            <==> forall e :: e in log && InWindow(e, since, until) ==> Readable(e)
  {
    FilterMembers(Wanted(since, until), log);
    FilterMembers(e => InWindow(e, since, until), log);
    if forall e :: e in log && InWindow(e, since, until) ==> Readable(e) {
      FilterAgree(Wanted(since, until), e => InWindow(e, since, until), log);
    } else {
      var e :| e in log && InWindow(e, since, until) && !Readable(e);
      assert e in Filter(x => InWindow(x, since, until), log);
    }
  }

  // The case is real: an event without a reason is appended and never read back.
  lemma EmptyTextIsLost(e: Event)
    requires e.reason == ""
    ensures !Suppressed(EMPTY, e) && WrittenLog([e]) == [e]
    ensures
      var r := ReadEvents(RunJournal([e]).files, e.at, e.at, None);
      r.events == [] && r.invalidRecords == 1 && !r.truncated
  {
    OneEventIsWritten(e);
    SortNothing();
    FilterOne(Wanted(e.at, e.at), e);
    FilterOne(Bad(DayOf(e.at), DayOf(e.at)), e);
    hide Filter, RunJournal, DayOf, ReadEvents, SortByTime, WrittenLog, FlatLog, Kept, Suppressed;
    ReadRefinesFlatLog([e], e.at, e.at, None);
    assert ReadsFrom([e], RunJournal([e]).files, e.at, e.at, None);
    assert LastOf([], Limit(None)) == [];
  }

  lemma OneEventIsWritten(e: Event)
    ensures !Suppressed(EMPTY, e) && WrittenLog([e]) == [e]
  {
    assert [e][..0] == [] && WrittenLog([]) == [];
  }

  lemma SortNothing()
    ensures SortByTime([]) == []
  {
  }

  // The durations of the journal, in milliseconds.
  lemma Durations()
    ensures DEDUPE_MS == 900_000 && DEDUPE_RETENTION_MS == 3_600_000 && EVENT_RETENTION_MS == 604_800_000
  {
  }
}
