/** The service's thread and its two helpers, changed in place, proved against `ChangeDetection`. */
module ClipboardService {
  import opened Wrappers
  import opened ChangeDetection

  class ChangeDetector {
    var last: Option<Fingerprint>

    constructor ()
      ensures last == None
    {
      last := None;
    }

    method Baseline(s: Snapshot)
      modifies this
      ensures last == FingerprintOf(s)
    {
      last := FingerprintOf(s);
    }

    method Observe(s: Snapshot) returns (changed: bool)
      modifies this
      ensures changed == IsChange(old(last), s) && last == FingerprintOf(s)
    {
      var current := FingerprintOf(s);
      changed := current.Some? && current != last;
      last := current;
    }
  }

  class Schedule {
    const interval: nat
    var next: nat

    constructor (now: nat, interval: nat)
      ensures this.interval == interval && next == now + interval
    {
      this.interval := interval;
      next := now + interval;
    }

    method Notified(now: nat)
      modifies this
      ensures next == Min(old(next), now + NOTIFY_DEBOUNCE_MS)
    {
      next := Min(next, now + NOTIFY_DEBOUNCE_MS);
    }

    method Checked(now: nat)
      modifies this
      ensures next == now + interval
    {
      next := now + interval;
    }
  }

  /** What the thread keeps between requests, and what it has reported. */
  class Watcher {
    const detector: ChangeDetector
    const schedule: Schedule
    var lastToken: Option<nat>
    var reported: seq<Snapshot>

    ghost function Value(): Thread
      reads this, detector, schedule
    {
      Thread(Memory(lastToken, detector.last), schedule.next, reported)
    }

    constructor (first: Check, now: nat, interval: nat)
      ensures Value() == Thread(Start(first), now + interval, [])
      ensures schedule.interval == interval && fresh(detector) && fresh(schedule)
    {
      detector := new ChangeDetector();
      schedule := new Schedule(now, interval);
      lastToken := first.token;
      reported := [];
      new;
      detector.Baseline(if first.read.Got? then first.read.snapshot else Empty);
    }

    method Handle(r: Request)
      modifies this, detector, schedule
      ensures Value() == HandleOne(schedule.interval, old(Value()), r)
    {
      match r {
        case Changed(now) =>
          schedule.Notified(now);
        case Timeout(now, check) =>
          OnTimeout(now, check);
        case _ =>
      }
    }

    /** A check is due. */
    method OnTimeout(now: nat, check: Check)
      modifies this, detector, schedule
      ensures Value() == HandleOne(schedule.interval, old(Value()), Timeout(now, check))
    {
      schedule.Checked(now);
      if check.token.Some? && check.token == lastToken {
        return;
      }
      lastToken := check.token;
      if check.read.Got? {
        var changed := detector.Observe(check.read.snapshot);
        if changed {
          reported := reported + [check.read.snapshot];
        }
      }
    }
  }

  /** Handles requests until told to stop: how many, what it reported, and when it would check next. */
  method Run(first: Check, start: nat, interval: nat, requests: seq<Request>)
    returns (n: nat, reported: seq<Snapshot>, next: nat)
    ensures n <= |requests| && forall i :: 0 <= i < n ==> requests[i] != Stop
    ensures n < |requests| ==> requests[n] == Stop
    ensures reported == Somes(Fast(first, ChecksOf(requests[..n])).1)
    ensures Empty !in reported
    ensures next == Due(interval, SinceOf(start, requests[..n]))
  {
    var w := new Watcher(first, start, interval);
    n := 0;
    while n < |requests| && requests[n] != Stop
      invariant n <= |requests| && forall i :: 0 <= i < n ==> requests[i] != Stop
      invariant fresh(w) && fresh(w.detector) && fresh(w.schedule) && w.schedule.interval == interval
      invariant w.Value() == Handled(first, start, interval, requests[..n])
      decreases |requests| - n
    {
      w.Handle(requests[n]);
      assert requests[..n + 1][..n] == requests[..n];
      n := n + 1;
    }
    HandledIs(first, start, interval, requests[..n]);
    EmptyIsNeverReported(first, ChecksOf(requests[..n]));
    reported, next := w.reported, w.schedule.next;
  }
}
