/** How the clipboard service notices copies (`crates/cled-clipboard/src/service.rs`, `run` and
    `Schedule`; `detector.rs`; `snapshot.rs`): when it checks, and that skipping a read because the
    platform's change token is unchanged loses nothing, provided reads succeed. */
module ChangeDetection {
  import opened Wrappers
  import opened Content

  const NOTIFY_DEBOUNCE_MS: nat := 25

  datatype SkipReason = Sensitive | TooLarge(width: nat, height: nat)
  datatype Snapshot = Empty | Holds(content: Content) | Skipped(reason: SkipReason)

  /** What is remembered of a snapshot: its identity, or nothing of an empty clipboard. The hash that
      stands for it is taken to be injective. */
  datatype Fingerprint = OfContent(identity: Identity) | OfSkipped(reason: SkipReason)

  function FingerprintOf(s: Snapshot): Option<Fingerprint> {
    match s
    case Empty => None
    case Holds(content) => Some(OfContent(IdentityOf(content)))
    case Skipped(reason) => Some(OfSkipped(reason))
  }

  /** A read fails when another program holds the clipboard, or for another reason. */
  datatype Read = Got(snapshot: Snapshot) | Failed

  /** What a check finds: the change token, where the platform has one, and the clipboard. */
  datatype Check = Check(token: Option<nat>, read: Read)

  // ---- Two loops ----

  predicate IsChange(last: Option<Fingerprint>, s: Snapshot) {
    FingerprintOf(s).Some? && FingerprintOf(s) != last
  }

  /** The loop's memory: the last token and the last snapshot. */
  datatype Memory = Memory(token: Option<nat>, last: Option<Fingerprint>)

  function Start(c: Check): Memory {
    Memory(c.token, if c.read.Got? then FingerprintOf(c.read.snapshot) else None)
  }

  predicate Skips(m: Memory, c: Check) {
    c.token.Some? && c.token == m.token
  }

  function Observe(m: Memory, c: Check): (Memory, Option<Snapshot>) {
    match c.read
    case Failed => (m.(token := c.token), None)
    case Got(s) => (Memory(c.token, FingerprintOf(s)), if IsChange(m.last, s) then Some(s) else None)
  }

  /** The service's check: no read if the token is unchanged. */
  function CheckOnce(m: Memory, c: Check): (Memory, Option<Snapshot>) {
    if Skips(m, c) then (m, None) else Observe(m, c)
  }

  /** The memory and the reports after the checks, by the service and by one that always reads. */
  function Fast(first: Check, checks: seq<Check>): (Memory, seq<Option<Snapshot>>) {
    if checks == [] then (Start(first), [])
    else
      var (m, reports) := Fast(first, checks[..|checks| - 1]);
      var (m', report) := CheckOnce(m, checks[|checks| - 1]);
      (m', reports + [report])
  }

  function Simple(first: Check, checks: seq<Check>): (Memory, seq<Option<Snapshot>>) {
    if checks == [] then (Start(first), [])
    else
      var (m, reports) := Simple(first, checks[..|checks| - 1]);
      var (m', report) := Observe(m, checks[|checks| - 1]);
      (m', reports + [report])
  }

  lemma OneMoreCheck(first: Check, checks: seq<Check>, c: Check)
    ensures var (m, reports) := Fast(first, checks);
      Fast(first, checks + [c]) == (CheckOnce(m, c).0, reports + [CheckOnce(m, c).1])
    ensures var (m, reports) := Simple(first, checks);
      Simple(first, checks + [c]) == (Observe(m, c).0, reports + [Observe(m, c).1])
  {
    assert (checks + [c])[..|checks + [c]| - 1] == checks;
  }

  /** The first snapshot is a baseline: until something else is seen, nothing is reported. */
  lemma {:induction false} BaselineIsNoChange(first: Check, checks: seq<Check>)
    requires first.read.Got? && forall c :: c in checks ==> c.read == first.read || c.read == Failed
    ensures Fast(first, checks).0.last == FingerprintOf(first.read.snapshot)
    ensures forall r :: r in Fast(first, checks).1 ==> r == None
  {
    if checks != [] {
      assert checks[|checks| - 1] in checks;
      BaselineIsNoChange(first, checks[..|checks| - 1]);
    }
  }

  // ---- When skipping loses nothing ----

  function Before(first: Check, checks: seq<Check>, k: nat): Check
    requires k < |checks|
  {
    if k == 0 then first else checks[k - 1]
  }

  /** The last successful read before a check; at first an unreadable clipboard counts as empty. */
  function LastSeen(first: Check, checks: seq<Check>): Option<Fingerprint> {
    if checks == [] then Start(first).last
    else if checks[|checks| - 1].read.Got? then FingerprintOf(checks[|checks| - 1].read.snapshot)
    else LastSeen(first, checks[..|checks| - 1])
  }

  /** The `k`-th check keeps the token of the one before, yet could have read something other than
      what was last seen. */
  predicate Misses(first: Check, checks: seq<Check>, k: nat)
    requires k < |checks|
  {
    var c := checks[k];
    && c.token.Some? && c.token == Before(first, checks, k).token
    && c.read.Got? && FingerprintOf(c.read.snapshot) != LastSeen(first, checks[..k])
  }

  lemma {:induction false} SimpleRemembers(first: Check, checks: seq<Check>)
    ensures var m := Simple(first, checks).0;
      m == Memory(if checks == [] then first.token else checks[|checks| - 1].token, LastSeen(first, checks))
  {
    if checks != [] {
      SimpleRemembers(first, checks[..|checks| - 1]);
    }
  }

  /** Skipped or not, the token remembered is the last check's. */
  lemma {:induction false} FastToken(first: Check, checks: seq<Check>)
    ensures Fast(first, checks).0.token == if checks == [] then first.token else checks[|checks| - 1].token
  {
    if checks != [] {
      FastToken(first, checks[..|checks| - 1]);
    }
  }

  ghost predicate Agree(first: Check, checks: seq<Check>) {
    forall k :: 0 <= k <= |checks| ==> Fast(first, checks[..k]) == Simple(first, checks[..k])
  }

  lemma OneMore(first: Check, checks: seq<Check>)
    requires checks != [] && Fast(first, checks[..|checks| - 1]) == Simple(first, checks[..|checks| - 1])
    ensures Fast(first, checks) == Simple(first, checks) <==> !Misses(first, checks, |checks| - 1)
  {
    var init, c := checks[..|checks| - 1], checks[|checks| - 1];
    SimpleRemembers(first, init);
    var m := Simple(first, init).0;
    assert Skips(m, c) <==> c.token.Some? && c.token == Before(first, checks, |checks| - 1).token;
    assert checks == init + [c];
    OneMoreCheck(first, init, c);
    if Skips(m, c) && !Misses(first, checks, |checks| - 1) {
      assert Observe(m, c) == (m, None);
    }
  }

  /** The service reports and remembers exactly what a loop reading on every check does, if and only
      if no skipped check could have read something other than what was last seen. */
  lemma {:induction false} ShortcutExactIff(first: Check, checks: seq<Check>)
    ensures Agree(first, checks) <==> forall k :: 0 <= k < |checks| ==> !Misses(first, checks, k)
  {
    if checks == [] {
      assert checks[..0] == [];
    } else {
      var init := checks[..|checks| - 1];
      ShortcutExactIff(first, init);
      assert forall k :: 0 <= k <= |init| ==> init[..k] == checks[..k];
      assert checks[..|checks|] == checks;
      forall k | 0 <= k < |init| ensures Misses(first, init, k) <==> Misses(first, checks, k) {
        assert init[..k] == checks[..k];
      }
      assert Agree(first, checks) <==> Agree(first, init) && Fast(first, checks) == Simple(first, checks);
      if Agree(first, init) {
        assert init[..|init|] == init;
        OneMore(first, checks);
      }
    }
  }

  /** Equal consecutive tokens mean an unchanged clipboard. */
  ghost predicate TokensTell(first: Check, checks: seq<Check>) {
    forall k :: 0 <= k < |checks| && checks[k].token.Some? && checks[k].token == Before(first, checks, k).token
      ==> checks[k].read == Before(first, checks, k).read
  }

  /** So it does whenever tokens tell the truth and no read fails. */
  lemma ShortcutExact(first: Check, checks: seq<Check>)
    requires TokensTell(first, checks)
    requires first.read.Got? && forall k :: 0 <= k < |checks| ==> checks[k].read.Got?
    ensures Fast(first, checks) == Simple(first, checks)
  {
    forall k | 0 <= k < |checks| ensures !Misses(first, checks, k) {
      if k > 0 {
        assert checks[..k][k - 1] == checks[k - 1];
      }
    }
    ShortcutExactIff(first, checks);
    assert checks[..|checks|] == checks;
  }

  lemma SkippedCheck(first: Check, checks: seq<Check>, c: Check)
    requires Skips(Fast(first, checks).0, c)
    ensures Fast(first, checks + [c]) == (Fast(first, checks).0, Fast(first, checks).1 + [None])
  {
    OneMoreCheck(first, checks, c);
  }

  lemma OneMoreOf(busy: Check, ok: Check, n: nat)
    ensures [busy] + seq(n + 1, _ => ok) == [busy] + seq(n, _ => ok) + [ok]
  {
  }

  lemma {:induction false} StaysSilent(first: Check, busy: Check, ok: Check, n: nat)
    requires first.token != busy.token == ok.token && ok.token.Some? && busy.read.Failed?
    ensures var (m, reports) := Fast(first, [busy] + seq(n, _ => ok));
      m == Memory(ok.token, Start(first).last) && forall r :: r in reports ==> r == None
  {
    if n == 0 {
      OneMoreCheck(first, [], busy);
      assert [busy] + seq(0, _ => ok) == [] + [busy];
    } else {
      StaysSilent(first, busy, ok, n - 1);
      OneMoreOf(busy, ok, n - 1);
      SkippedCheck(first, [busy] + seq(n - 1, _ => ok), ok);
    }
  }

  lemma {:induction false} ReportsLater(first: Check, busy: Check, ok: Check, s: Snapshot, n: nat)
    requires first.read.Got? && busy.read.Failed? && ok.read == Got(s)
        && IsChange(FingerprintOf(first.read.snapshot), s)
    ensures Some(s) in Simple(first, [busy] + seq(n + 1, _ => ok)).1
  {
    var before := [busy] + seq(n, _ => ok);
    OneMoreOf(busy, ok, n);
    OneMoreCheck(first, before, ok);
    if n == 0 {
      OneMoreCheck(first, [], busy);
      assert before == [] + [busy];
    } else {
      ReportsLater(first, busy, ok, s, n - 1);
    }
  }

  /** A copy whose first read fails is never reported while the clipboard stays as it is: the token
      is remembered before the read. A loop reading every time reports it. */
  lemma FailedReadLosesACopy(was: Content, copied: Content, n: nat)
    requires IdentityOf(was) != IdentityOf(copied)
    ensures var first, busy, ok := Check(Some(1), Got(Holds(was))), Check(Some(2), Failed),
        Check(Some(2), Got(Holds(copied)));
      var checks := [busy] + seq(n + 1, _ => ok);
      && (forall r :: r in Fast(first, checks).1 ==> r == None)
      && Some(Holds(copied)) in Simple(first, checks).1
  {
    var first, busy, ok := Check(Some(1), Got(Holds(was))), Check(Some(2), Failed), Check(Some(2), Got(Holds(copied)));
    StaysSilent(first, busy, ok, n + 1);
    ReportsLater(first, busy, ok, Holds(copied), n);
  }

  // ---- What is reported ----

  /** The token is the one of the check before, so the clipboard is not read. */
  predicate Unread(first: Check, checks: seq<Check>, k: nat)
    requires k < |checks|
  {
    checks[k].token.Some? && checks[k].token == Before(first, checks, k).token
  }

  /** What was last read, unread checks and failed reads aside; `None` if nothing ever was. */
  function LastRead(first: Check, checks: seq<Check>): Option<Snapshot> {
    if checks == [] then if first.read.Got? then Some(first.read.snapshot) else None
    else
      var k := |checks| - 1;
      if !Unread(first, checks, k) && checks[k].read.Got? then Some(checks[k].read.snapshot)
      else LastRead(first, checks[..k])
  }

  /** The same content as far as its identity goes, or skipped for the same reason. */
  predicate SameCopy(s: Snapshot, t: Snapshot) {
    match (s, t)
    case (Holds(a), Holds(b)) => IdentityOf(a) == IdentityOf(b)
    case (Skipped(a), Skipped(b)) => a == b
    case _ => false
  }

  lemma {:induction false} RemembersLastRead(first: Check, checks: seq<Check>)
    ensures Fast(first, checks).0.last
         == match LastRead(first, checks) { case None => None case Some(s) => FingerprintOf(s) }
  {
    if checks != [] {
      var init := checks[..|checks| - 1];
      RemembersLastRead(first, init);
      FastToken(first, init);
    }
  }

  lemma {:induction false} OneReportEach(first: Check, checks: seq<Check>, k: nat)
    requires k < |checks|
    ensures |Fast(first, checks).1| == |checks|
    ensures Fast(first, checks).1[k] == CheckOnce(Fast(first, checks[..k]).0, checks[k]).1
    decreases |checks|
  {
    var init := checks[..|checks| - 1];
    assert checks == init + [checks[|checks| - 1]];
    OneMoreCheck(first, init, checks[|checks| - 1]);
    if k < |init| {
      OneReportEach(first, init, k);
      assert init[..k] == checks[..k];
    } else if init != [] {
      OneReportEach(first, init, 0);
    }
  }

  /** A check reports what it read exactly if that is not empty, and what was read before it was
      empty or another copy, or nothing had been read at all. */
  lemma ReportsAre(first: Check, checks: seq<Check>, k: nat, s: Snapshot)
    requires k < |checks|
    ensures |Fast(first, checks).1| == |checks|
    ensures Fast(first, checks).1[k] == Some(s) <==>
      var was := LastRead(first, checks[..k]);
      && !Unread(first, checks, k) && checks[k].read == Got(s) && s != Empty
      && (was.None? || was.value == Empty || !SameCopy(was.value, s))
  {
    OneReportEach(first, checks, k);
    RemembersLastRead(first, checks[..k]);
    FastToken(first, checks[..k]);
  }

  lemma {:induction false} SomesIff(reports: seq<Option<Snapshot>>, s: Snapshot)
    ensures s in Somes(reports) <==> Some(s) in reports
  {
    if reports != [] {
      var init := reports[..|reports| - 1];
      SomesIff(init, s);
      assert reports == init + [reports[|reports| - 1]];
    }
  }

  lemma EmptyIsNeverReported(first: Check, checks: seq<Check>)
    ensures Empty !in Somes(Fast(first, checks).1)
  {
    var reports := Fast(first, checks).1;
    SomesIff(reports, Empty);
    if checks != [] {
      OneReportEach(first, checks, 0);
    }
    if Some(Empty) in reports {
      var k :| 0 <= k < |reports| && reports[k] == Some(Empty);
      ReportsAre(first, checks, k, Empty);
    }
  }

  lemma {:induction false} LastReadAt(first: Check, checks: seq<Check>, j: nat, k: nat)
    requires j < k <= |checks| && !Unread(first, checks, j) && checks[j].read.Got?
    requires forall i :: j < i < k ==> Unread(first, checks, i) || checks[i].read.Failed?
    ensures LastRead(first, checks[..k]) == Some(checks[j].read.snapshot)
  {
    assert Unread(first, checks[..k], k - 1) == Unread(first, checks, k - 1);
    if j < k - 1 {
      LastReadAt(first, checks, j, k - 1);
      assert checks[..k][..k - 1] == checks[..k - 1];
    }
  }

  /** Whatever was copied before the clipboard was emptied, the next copy read is reported, were it
      the same. */
  lemma CopyAfterEmptyIsReported(first: Check, checks: seq<Check>, j: nat, k: nat, s: Snapshot)
    requires j < k < |checks| && !Unread(first, checks, j) && checks[j].read == Got(Empty)
    requires forall i :: j < i < k ==> Unread(first, checks, i) || checks[i].read.Failed?
    requires !Unread(first, checks, k) && checks[k].read == Got(s) && s != Empty
    ensures s in Somes(Fast(first, checks).1)
  {
    LastReadAt(first, checks, j, k);
    ReportsAre(first, checks, k, s);
    SomesIff(Fast(first, checks).1, s);
  }

  // ---- When it checks ----

  /** The time of the last check, and of the notifications since. */
  datatype Since = Since(checked: nat, notified: seq<nat>)

  function Min(a: nat, b: nat): nat {
    if a <= b then a else b
  }

  function Due(interval: nat, s: Since): nat
    decreases |s.notified|
  {
    if s.notified == [] then s.checked + interval
    else Min(Due(interval, s.(notified := s.notified[..|s.notified| - 1])),
        s.notified[|s.notified| - 1] + NOTIFY_DEBOUNCE_MS)
  }

  /** The next check is due an interval after the last one or shortly after the first notification
      since, whichever is sooner: a burst of notifications doesn't put it off. */
  lemma {:induction false} DueIsAfterTheFirst(interval: nat, s: Since)
    requires forall i, j :: 0 <= i < j < |s.notified| ==> s.notified[i] <= s.notified[j]
    ensures Due(interval, s)
         == if s.notified == [] then s.checked + interval
             else Min(s.checked + interval, s.notified[0] + NOTIFY_DEBOUNCE_MS)
    decreases |s.notified|
  {
    if s.notified != [] {
      var init := s.(notified := s.notified[..|s.notified| - 1]);
      DueIsAfterTheFirst(interval, init);
      assert s.notified[0] <= s.notified[|s.notified| - 1];
    }
  }

  // ---- What the service's thread is asked ----

  /** Other requests (reading, writing, handing over at exit) change nothing this module models. */
  datatype Request = Changed(now: nat) | Timeout(now: nat, check: Check) | Other | Stop

  function ChecksOf(rs: seq<Request>): seq<Check> {
    if rs == [] then []
    else
      var last := rs[|rs| - 1];
      var before := ChecksOf(rs[..|rs| - 1]);
      if last.Timeout? then before + [last.check] else before
  }

  function SinceOf(start: nat, rs: seq<Request>): Since {
    if rs == [] then Since(start, [])
    else
      var s := SinceOf(start, rs[..|rs| - 1]);
      match rs[|rs| - 1]
      case Changed(now) => s.(notified := s.notified + [now])
      case Timeout(now, _) => Since(now, [])
      case _ => s
  }

  function Somes(reports: seq<Option<Snapshot>>): seq<Snapshot> {
    if reports == [] then []
    else
      var last := reports[|reports| - 1];
      var before := Somes(reports[..|reports| - 1]);
      if last.Some? then before + [last.value] else before
  }

  /** What the thread remembers, when it checks next, and what it has reported. */
  datatype Thread = Thread(memory: Memory, next: nat, reported: seq<Snapshot>)

  function HandleOne(interval: nat, t: Thread, r: Request): Thread {
    match r
    case Changed(now) => t.(next := Min(t.next, now + NOTIFY_DEBOUNCE_MS))
    case Timeout(now, check) =>
      var (memory, report) := CheckOnce(t.memory, check);
      Thread(memory, now + interval, if report.Some? then t.reported + [report.value] else t.reported)
    case _ => t
  }

  function Handled(first: Check, start: nat, interval: nat, rs: seq<Request>): Thread {
    if rs == [] then Thread(Start(first), start + interval, [])
    else HandleOne(interval, Handled(first, start, interval, rs[..|rs| - 1]), rs[|rs| - 1])
  }

  lemma {:induction false} NextIsDue(first: Check, start: nat, interval: nat, rs: seq<Request>)
    ensures Handled(first, start, interval, rs).next == Due(interval, SinceOf(start, rs))
  {
    if rs != [] {
      var init, r := rs[..|rs| - 1], rs[|rs| - 1];
      NextIsDue(first, start, interval, init);
      if r.Changed? {
        OneMoreNotification(interval, SinceOf(start, init), r.now);
      }
    }
  }

  /** What the checks `cs` make of the memory and the reports. */
  ghost predicate Holding(first: Check, cs: seq<Check>, t: Thread) {
    t.memory == Fast(first, cs).0 && t.reported == Somes(Fast(first, cs).1)
  }

  lemma CheckHeld(first: Check, cs: seq<Check>, interval: nat, t: Thread, now: nat, c: Check)
    requires Holding(first, cs, t)
    ensures Holding(first, cs + [c], HandleOne(interval, t, Timeout(now, c)))
  {
    OneMoreCheck(first, cs, c);
    OneMoreReport(Fast(first, cs).1, CheckOnce(t.memory, c).1);
  }

  lemma {:induction false} HandledHolds(first: Check, start: nat, interval: nat, rs: seq<Request>)
    ensures Holding(first, ChecksOf(rs), Handled(first, start, interval, rs))
  {
    if rs != [] {
      var init, r := rs[..|rs| - 1], rs[|rs| - 1];
      HandledHolds(first, start, interval, init);
      if r.Timeout? {
        CheckHeld(first, ChecksOf(init), interval, Handled(first, start, interval, init), r.now, r.check);
      }
    }
  }

  /** Request by request, the thread reports what the checks so far report, and is next due as the
      last check and the notifications since say. */
  lemma HandledIs(first: Check, start: nat, interval: nat, rs: seq<Request>)
    ensures var t := Handled(first, start, interval, rs);
      && (t.memory, t.reported) == (Fast(first, ChecksOf(rs)).0, Somes(Fast(first, ChecksOf(rs)).1))
      && t.next == Due(interval, SinceOf(start, rs))
  {
    NextIsDue(first, start, interval, rs);
    HandledHolds(first, start, interval, rs);
  }

  lemma OneMoreNotification(interval: nat, s: Since, now: nat)
    ensures Due(interval, s.(notified := s.notified + [now])) == Min(Due(interval, s), now + NOTIFY_DEBOUNCE_MS)
  {
    var t := s.(notified := s.notified + [now]);
    assert t.(notified := t.notified[..|t.notified| - 1]) == s;
  }

  lemma OneMoreReport(reports: seq<Option<Snapshot>>, r: Option<Snapshot>)
    ensures Somes(reports + [r]) == if r.Some? then Somes(reports) + [r.value] else Somes(reports)
  {
    assert (reports + [r])[..|reports + [r]| - 1] == reports;
  }
}
