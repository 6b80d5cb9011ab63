/** The side showing a pairing code (`crates/cled-lan/src/node.rs`, `start_pairing`, `end_pairing`,
    `accept_pairing`): how often a code can be tried, and when it stops working. The exchange itself
    and the random generator decide freely. One attempt at a time: the session is locked for the
    whole of it. */
module Pairing {
  import opened Wrappers

  type Code = nat

  const CODE_LIFETIME_MS: nat := 120000
  const MAX_PAIRING_FAILURES: nat := 3

  datatype Shown = Shown(code: Code, expires: nat, failures: nat)

  /** `Attempt`: a device connects at `now`; should the exchange take place, `paired` says whether it
      succeeds and `done` when it ends; should a new code be needed, `drawn` is what the generator
      gives. */
  datatype Event =
    | Show(now: nat, drawn: Option<Code>)
    | Hide
    | Attempt(now: nat, paired: bool, done: nat, drawn: Option<Code>)

  datatype Outcome = Nothing | NotPairing | Expired | Paired(code: Code) | Refused(code: Code)

  function Fresh(code: Code, now: nat): Shown {
    Shown(code, now + CODE_LIFETIME_MS, 0)
  }

  /** A failed attempt at `s`: three, and the code is replaced, if another can be had. */
  function AfterFailure(s: Shown, done: nat, drawn: Option<Code>): Shown {
    var failures := s.failures + 1;
    if failures >= MAX_PAIRING_FAILURES && drawn.Some? then Fresh(drawn.value, done) else s.(failures := failures)
  }

  function After(state: Option<Shown>, e: Event): Option<Shown> {
    match e
    case Show(now, drawn) => if drawn.Some? then Some(Fresh(drawn.value, now)) else state
    case Hide => None
    case Attempt(now, paired, done, drawn) =>
      if state.None? || now > state.value.expires || paired then None
      else Some(AfterFailure(state.value, done, drawn))
  }

  function OutcomeOf(state: Option<Shown>, e: Event): Outcome {
    if !e.Attempt? then Nothing
    else if state.None? then NotPairing
    else if e.now > state.value.expires then Expired
    else if e.paired then Paired(state.value.code) else Refused(state.value.code)
  }

  /** The last failure allowed: the code is about to be replaced. */
  predicate Third(state: Option<Shown>, e: Event) {
    OutcomeOf(state, e).Refused? && state.value.failures + 1 >= MAX_PAIRING_FAILURES
  }

  /** The code an event generates, and when. */
  function Made(state: Option<Shown>, e: Event): Option<Code> {
    if e.Show? || Third(state, e) then e.drawn else None
  }

  function Time(e: Event): nat {
    match e
    case Show(now, _) => now
    case Hide => 0
    case Attempt(_, _, done, _) => done
  }

  // ---- The session ----

  class PairingHost {
    var session: Option<Shown>

    constructor ()
      ensures session == None
    {
      session := None;
    }

    method StartPairing(now: nat, drawn: Option<Code>) returns (code: Option<Code>)
      modifies this
      ensures session == After(old(session), Show(now, drawn)) && code == drawn
    {
      if drawn.None? {
        return None;
      }
      session := Some(Shown(drawn.value, now + CODE_LIFETIME_MS, 0));
      code := drawn;
    }

    method EndPairing()
      modifies this
      ensures session == After(old(session), Hide)
    {
      session := None;
    }

    method AcceptPairing(now: nat, paired: bool, done: nat, drawn: Option<Code>) returns (r: Outcome)
      modifies this
      ensures session == After(old(session), Attempt(now, paired, done, drawn))
      ensures r == OutcomeOf(old(session), Attempt(now, paired, done, drawn))
    {
      if session.None? {
        return NotPairing;
      }
      var active := session.value;
      if now > active.expires {
        session := None;
        EndPairing();
        return Expired;
      }
      if paired {
        session := None;
        EndPairing();
        return Paired(active.code);
      }
      r := Refused(active.code);
      active := active.(failures := active.failures + 1);
      session := Some(active);
      if active.failures >= MAX_PAIRING_FAILURES {
        if drawn.None? {
          return;
        }
        session := Some(Shown(drawn.value, done + CODE_LIFETIME_MS, 0));
      }
    }
  }

  // ---- Runs ----

  function State(es: seq<Event>): Option<Shown> {
    if es == [] then None else After(State(es[..|es| - 1]), es[|es| - 1])
  }

  /** What the last event of a run came to, and the code it made. */
  function Result(es: seq<Event>): Outcome
    requires es != []
  {
    OutcomeOf(State(es[..|es| - 1]), es[|es| - 1])
  }

  function MadeLast(es: seq<Event>): Option<Code>
    requires es != []
  {
    Made(State(es[..|es| - 1]), es[|es| - 1])
  }

  ghost predicate EverMade(es: seq<Event>, c: Code) {
    es != [] && (MadeLast(es) == Some(c) || EverMade(es[..|es| - 1], c))
  }

  /** No code is generated twice. */
  ghost predicate AllFresh(es: seq<Event>) {
    es != [] ==>
      && AllFresh(es[..|es| - 1])
      && (MadeLast(es).Some? ==> !EverMade(es[..|es| - 1], MadeLast(es).value))
  }

  predicate Showing(es: seq<Event>, c: Code) {
    State(es).Some? && State(es).value.code == c
  }

  /** When the code was made. */
  ghost function MadeAt(es: seq<Event>, c: Code): nat {
    if es == [] then 0
    else if MadeLast(es) == Some(c) then Time(es[|es| - 1])
    else MadeAt(es[..|es| - 1], c)
  }

  /** How often `c` was tried and refused, and used. */
  function Refusals(es: seq<Event>, c: Code): nat {
    if es == [] then 0 else Refusals(es[..|es| - 1], c) + if Result(es) == Refused(c) then 1 else 0
  }

  function Successes(es: seq<Event>, c: Code): nat {
    if es == [] then 0 else Successes(es[..|es| - 1], c) + if Result(es) == Paired(c) then 1 else 0
  }

  /** How often replacing `c` failed, and succeeded. */
  function Stuck(es: seq<Event>, c: Code): nat {
    if es == [] then 0
    else
      var state, e := State(es[..|es| - 1]), es[|es| - 1];
      Stuck(es[..|es| - 1], c) + if Result(es) == Refused(c) && Third(state, e) && e.drawn.None? then 1 else 0
  }

  function Burned(es: seq<Event>, c: Code): nat {
    if es == [] then 0
    else
      var state, e := State(es[..|es| - 1]), es[|es| - 1];
      Burned(es[..|es| - 1], c) + if Result(es) == Refused(c) && Third(state, e) && e.drawn.Some? then 1 else 0
  }

  // ---- What a code is good for ----

  /** Where every code stands in a run. */
  ghost predicate Account(es: seq<Event>, c: Code) {
    var r, s, stuck, burned := Refusals(es, c), Successes(es, c), Stuck(es, c), Burned(es, c);
    && (!EverMade(es, c) ==> r == s == stuck == burned == 0 && !Showing(es, c))
    && (Showing(es, c) ==>
          s == 0 && burned == 0 && State(es).value == Shown(c, MadeAt(es, c) + CODE_LIFETIME_MS, r))
    && s <= 1 && burned <= 1
    && (if r < MAX_PAIRING_FAILURES then stuck == burned == 0 else r == MAX_PAIRING_FAILURES - 1 + stuck + burned)
  }

  lemma {:induction false} CodesAccounted(es: seq<Event>, c: Code)
    requires AllFresh(es)
    ensures Account(es, c)
  {
    if es != [] {
      CodesAccounted(es[..|es| - 1], c);
    }
  }

  /** A code shown is refused at most three times and used at most once, as long as a new code can
      be generated when it is due; each time it can't, one more try is let through. */
  lemma TriesAreBounded(es: seq<Event>, c: Code)
    requires AllFresh(es)
    ensures Successes(es, c) <= 1
    ensures Refusals(es, c) <= MAX_PAIRING_FAILURES + Stuck(es, c)
    ensures Refusals(es, c) > MAX_PAIRING_FAILURES <==> Stuck(es, c) + Burned(es, c) > 1
  {
    CodesAccounted(es, c);
  }

  /** Without a working generator there is no bound: the same code is refused a fourth time. */
  lemma GeneratorMatters(c: Code)
    ensures var miss := Attempt(0, false, 0, None);
      var es := [Show(0, Some(c)), miss, miss, miss, miss];
      AllFresh(es) && Refusals(es, c) == 4
  {
    var miss := Attempt(0, false, 0, None);
    var e1 := [Show(0, Some(c))];
    var e2 := e1 + [miss];
    var e3 := e2 + [miss];
    var e4 := e3 + [miss];
    var e5 := e4 + [miss];
    assert e1[..0] == [] && e2[..1] == e1 && e3[..2] == e2 && e4[..3] == e3 && e5[..4] == e4;
    assert State(e1) == Some(Shown(c, CODE_LIFETIME_MS, 0)) && Refusals(e1, c) == 0 && AllFresh(e1);
    assert State(e2) == Some(Shown(c, CODE_LIFETIME_MS, 1)) && Refusals(e2, c) == 1 && AllFresh(e2);
    assert State(e3) == Some(Shown(c, CODE_LIFETIME_MS, 2)) && Refusals(e3, c) == 2 && AllFresh(e3);
    assert State(e4) == Some(Shown(c, CODE_LIFETIME_MS, 3)) && Refusals(e4, c) == 3 && AllFresh(e4);
    assert Refusals(e5, c) == 4 && AllFresh(e5);
    assert e5 == [Show(0, Some(c)), miss, miss, miss, miss];
  }

  lemma UnshownIsUntried(es: seq<Event>, c: Code)
    requires es != [] && !Showing(es[..|es| - 1], c)
    ensures Result(es) !in {Paired(c), Refused(c)}
  {
  }

  lemma StaysRetired(es: seq<Event>, c: Code)
    requires es != [] && AllFresh(es) && EverMade(es[..|es| - 1], c) && !Showing(es[..|es| - 1], c)
    ensures EverMade(es, c) && !Showing(es, c)
  {
  }

  /** A code no longer shown is never tried again: one used, burned, expired, hidden or replaced. */
  lemma {:induction false} Retired(es: seq<Event>, j: nat, k: nat, c: Code)
    requires AllFresh(es) && j <= k <= |es| && EverMade(es[..j], c) && !Showing(es[..j], c)
    ensures AllFresh(es[..k]) && EverMade(es[..k], c) && !Showing(es[..k], c)
    ensures k < |es| ==> Result(es[..k + 1]) !in {Paired(c), Refused(c)}
    decreases |es|, k
  {
    PrefixFresh(es, k);
    if k > j {
      Retired(es, j, k - 1, c);
      assert es[..k][..|es[..k]| - 1] == es[..k - 1];
      StaysRetired(es[..k], c);
    }
    if k < |es| {
      assert es[..k + 1][..|es[..k + 1]| - 1] == es[..k];
      UnshownIsUntried(es[..k + 1], c);
    }
  }

  /** An expired code is taken off: nobody is pairing any more. */
  lemma ExpiryEnds(es: seq<Event>, k: nat)
    requires k < |es| && Result(es[..k + 1]) == Expired
    ensures State(es[..k]).Some? && State(es[..k + 1]) == None
    ensures k + 1 < |es| && es[k + 1].Attempt? ==> Result(es[..k + 2]) == NotPairing
  {
    assert es[..k + 1][..k] == es[..k];
    if k + 1 < |es| {
      assert es[..k + 2][..k + 1] == es[..k + 1];
    }
  }

  /** And it is never paired or refused again, whatever the clock says later. */
  lemma {:induction false} ExpiredForGood(es: seq<Event>, k: nat, l: nat, c: Code)
    requires AllFresh(es) && k < l < |es| && Showing(es[..k], c) && Result(es[..k + 1]) == Expired
    ensures Result(es[..l + 1]) !in {Paired(c), Refused(c)} && !Showing(es[..l], c)
  {
    PrefixFresh(es, k);
    CodesAccounted(es[..k], c);
    ExpiryEnds(es, k);
    assert es[..k + 1][..k] == es[..k];
    Retired(es, k + 1, l, c);
  }

  lemma {:induction false} PrefixFresh(es: seq<Event>, k: nat)
    requires AllFresh(es) && k <= |es|
    ensures AllFresh(es[..k])
    decreases |es|
  {
    if k < |es| {
      PrefixFresh(es[..|es| - 1], k);
      assert es[..|es| - 1][..k] == es[..k];
    } else {
      assert es[..k] == es;
    }
  }

  // ---- Exactly when a code is shown, and what an attempt comes to ----

  /** The `j`-th event takes off whatever is shown: hidden, expired, used, or another code made. */
  ghost predicate TakesOff(es: seq<Event>, j: nat)
    requires j < |es|
  {
    es[j].Hide? || MadeLast(es[..j + 1]).Some? || Result(es[..j + 1]).Expired? || Result(es[..j + 1]).Paired?
  }

  /** `c` was made by the `m`-th event, and nothing took it off since. */
  ghost predicate MadeAndKept(es: seq<Event>, m: nat, c: Code)
    requires m < |es|
  {
    MadeLast(es[..m + 1]) == Some(c) && forall j :: m < j < |es| ==> !TakesOff(es, j)
  }

  lemma LastTakesOff(es: seq<Event>)
    requires es != []
    ensures TakesOff(es, |es| - 1) ==> State(es) == match MadeLast(es) {
      case Some(c) => Some(Fresh(c, Time(es[|es| - 1]))) case None => None }
    ensures !TakesOff(es, |es| - 1) ==>
      MadeLast(es) == None && forall c :: Showing(es, c) <==> Showing(es[..|es| - 1], c)
  {
    assert es[..|es| - 1 + 1] == es;
  }

  lemma KeptBefore(es: seq<Event>, m: nat, c: Code)
    requires m < |es| - 1
    ensures MadeAndKept(es, m, c) <==> MadeAndKept(es[..|es| - 1], m, c) && !TakesOff(es, |es| - 1)
  {
    var init := es[..|es| - 1];
    assert init[..m + 1] == es[..m + 1];
    forall j | m < j < |init| ensures TakesOff(es, j) <==> TakesOff(init, j) {
      assert init[..j + 1] == es[..j + 1];
    }
  }

  /** A code is shown exactly if it was made and nothing took it off since: a code that could not be
      replaced goes on being shown, and so does one when showing another fails. */
  lemma {:induction false} ShownIff(es: seq<Event>, c: Code)
    ensures Showing(es, c) <==> exists m :: 0 <= m < |es| && MadeAndKept(es, m, c)
  {
    if es != [] {
      var init, last := es[..|es| - 1], |es| - 1;
      ShownIff(init, c);
      LastTakesOff(es);
      assert es[..last + 1] == es;
      assert MadeAndKept(es, last, c) <==> MadeLast(es) == Some(c);
      forall m | 0 <= m < last ensures MadeAndKept(es, m, c) <==> MadeAndKept(init, m, c) && !TakesOff(es, last) {
        KeptBefore(es, m, c);
      }
    }
  }

  /** An attempt at a code shown is too late two minutes after the code was made, and otherwise comes
      to what the exchange comes to; with nothing shown, nobody is pairing. */
  lemma AttemptIs(es: seq<Event>, c: Code)
    requires es != [] && AllFresh(es) && es[|es| - 1].Attempt?
    ensures var init, e := es[..|es| - 1], es[|es| - 1];
      && (Showing(init, c) ==>
            Result(es) == if e.now > MadeAt(init, c) + CODE_LIFETIME_MS then Expired
              else if e.paired then Paired(c) else Refused(c))
      && (Result(es) == NotPairing <==> forall d :: !Showing(init, d))
  {
    CodesAccounted(es[..|es| - 1], c);
    var state := State(es[..|es| - 1]);
    assert state.Some? ==> Showing(es[..|es| - 1], state.value.code);
  }

  /** A code that succeeds was made at most two minutes before the attempt began, and is over. */
  lemma SuccessIsInTime(es: seq<Event>, c: Code)
    requires es != [] && AllFresh(es) && Result(es) == Paired(c)
    ensures EverMade(es[..|es| - 1], c) && es[|es| - 1].now <= MadeAt(es[..|es| - 1], c) + CODE_LIFETIME_MS
    ensures !Showing(es, c)
  {
    CodesAccounted(es[..|es| - 1], c);
  }

  /** So does a code at its third refusal, unless none could be generated. */
  lemma ThirdRefusalEnds(es: seq<Event>, c: Code)
    requires es != [] && AllFresh(es) && Result(es) == Refused(c) && Refusals(es, c) >= MAX_PAIRING_FAILURES
    ensures Showing(es, c) <==> es[|es| - 1].drawn == None
  {
    CodesAccounted(es[..|es| - 1], c);
  }
}
