/** The proxy's registry of one-shot failpoints, each fired by its n-th COMMIT. */
module Failpoints {
  import opened Basics

  datatype Action = DropAfterForward | DropAndHoldAfterForward

  const MIN_HOLD_MS := 1
  const MAX_HOLD_MS := 300000
  const COMMIT_PACKET_BYTES := 11

  datatype Entry = Entry(
    id: nat,
    tag: string,
    matchNth: int,
    action: Action,
    holdMs: int,
    armed: bool,
    fired: bool,
    fireCount: nat,
    seenSinceArm: nat,
    matchedClient: string,
    matchedNth: int,
    bytesForwarded: int,
    responseBytesDropped: int)

  datatype FireResult = FireResult(id: nat, tag: string, matchedNth: int, action: Action, holdMs: int)

  /** The arguments of an `arm` request after JSON decoding and defaulting. */
  datatype ArmRequest = ArmRequest(tag: string, commandIsQuery: bool, sqlIsCommit: bool, nth: int,
                                   action: Option<Action>, times: int, holdMs: int)

  function Armed(id: nat, q: ArmRequest): Entry
    requires Acceptable(q)
  {
    Entry(id, q.tag, q.nth, q.action.value,
          if q.action.value == DropAndHoldAfterForward then q.holdMs else 0,
          true, false, 0, 0, "", 0, 0, 0)
  }

  predicate Acceptable(q: ArmRequest) {
    && q.tag != "" && q.commandIsQuery && q.sqlIsCommit && q.nth >= 1 && q.action.Some? && q.times == 1
    && (q.action.value == DropAndHoldAfterForward ==> MIN_HOLD_MS <= q.holdMs <= MAX_HOLD_MS)
  }

  function Counted(e: Entry): Entry {
    e.(seenSinceArm := e.seenSinceArm + 1)
  }

  function Fired(e: Entry, client: string): Entry {
    Counted(e).(armed := false, fired := true, fireCount := e.fireCount + 1, matchedClient := client,
                matchedNth := e.seenSinceArm + 1, bytesForwarded := COMMIT_PACKET_BYTES,
                responseBytesDropped := -1)
  }

  predicate Pending(e: Entry) {
    e.armed && !e.fired
  }

  predicate Due(e: Entry) {
    Pending(e) && e.seenSinceArm + 1 == e.matchNth
  }

  /** The first entry that this COMMIT fires, or the number of entries if it fires none. */
  function FireIndex(es: seq<Entry>): (k: nat)
    ensures k <= |es|
    ensures forall i :: 0 <= i < k ==> !Due(es[i])
    ensures k < |es| ==> Due(es[k])
  {
    if es == [] || Due(es[0]) then 0 else 1 + FireIndex(es[1..])
  }

  /** The registry after one COMMIT: pending entries before the firing one are counted,
      the firing one is fired, those behind it are left alone. */
  function AfterCommit(es: seq<Entry>, client: string): (r: seq<Entry>)
    ensures |r| == |es|
  {
    var k := FireIndex(es);
    seq(|es|, i requires 0 <= i < |es| =>
      if i < k then (if Pending(es[i]) then Counted(es[i]) else es[i])
      else if i == k then Fired(es[i], client)
      else es[i])
  }

  /** What is reported to the pump when a COMMIT fires something. */
  function FiresNow(es: seq<Entry>, client: string): Option<FireResult> {
    var k := FireIndex(es);
    if k < |es| then
      var e := AfterCommit(es, client)[k];
      Some(FireResult(e.id, e.tag, e.matchedNth, e.action, e.holdMs))
    else None
  }

  class Registry {
    var entries: seq<Entry>
    var nextId: nat

    constructor ()
      ensures entries == [] && nextId == 0
    {
      entries, nextId := [], 0;
    }

    /** Called once per COMMIT seen on the data path. */
    method ObserveCommit(client: string) returns (result: Option<FireResult>)
      modifies this`entries
      ensures entries == AfterCommit(old(entries), client)
      ensures result == FiresNow(old(entries), client)
    {
      result := None;
      var i := 0;
      var done := false;
      ghost var k := FireIndex(entries);
      while i < |entries| && !done
        invariant 0 <= i <= |entries| == |old(entries)|
        invariant !done ==> i <= k && result == None
        invariant done ==> i == k + 1 && k < |entries|
        invariant done ==> var e := entries[k];
                    result == Some(FireResult(e.id, e.tag, e.matchedNth, e.action, e.holdMs))
        invariant forall j :: 0 <= j < i ==> entries[j] == AfterCommit(old(entries), client)[j]
        invariant forall j :: i <= j < |entries| ==> entries[j] == old(entries)[j]
      {
        var e := entries[i];
        if e.armed && !e.fired {
          e := e.(seenSinceArm := e.seenSinceArm + 1);
          if e.seenSinceArm == e.matchNth {
            e := e.(armed := false, fired := true, fireCount := e.fireCount + 1, matchedClient := client,
                    matchedNth := e.seenSinceArm, bytesForwarded := 11, responseBytesDropped := -1);
            result := Some(FireResult(e.id, e.tag, e.matchedNth, e.action, e.holdMs));
            done := true;
          }
          entries := entries[i := e];
        }
        i := i + 1;
      }
    }

    method Arm(q: ArmRequest) returns (id: Option<nat>)
      modifies this
      ensures id.Some? <==> Acceptable(q)
      ensures id.None? <==>
                || q.tag == "" || !q.commandIsQuery || !q.sqlIsCommit || q.nth < 1 || q.action.None? || q.times != 1
                || (q.action.value == DropAndHoldAfterForward && !(1 <= q.holdMs <= 300000))
      ensures id.Some? ==> id.value == nextId == old(nextId) + 1 && entries == old(entries) + [Armed(nextId, q)]
      ensures id.None? ==> entries == old(entries) && nextId == old(nextId)
    {
      if q.tag == "" || !q.commandIsQuery || !q.sqlIsCommit || q.nth < 1 || q.action.None? || q.times != 1 {
        return None;
      }
      var holdMs := 0;
      if q.action.value == DropAndHoldAfterForward {
        holdMs := q.holdMs;
        if holdMs < MIN_HOLD_MS || holdMs > MAX_HOLD_MS {
          return None;
        }
      }
      nextId := nextId + 1;
      entries := entries + [Entry(nextId, q.tag, q.nth, q.action.value, holdMs,
                                  true, false, 0, 0, "", 0, 0, 0)];
      id := Some(nextId);
    }

    method Clear()
      modifies this`entries
      ensures entries == []
    {
      entries := [];
    }

    /** Ok exactly when something was armed and all of it has fired; the labels (`tag`) of what has
        not fired come back in order. */
    method AssertAllFired() returns (ok: bool, notFired: seq<string>)
      ensures ok <==> entries != [] && forall e :: e in entries ==> e.fired
      ensures notFired == UnfiredTags(entries)
    {
      notFired := [];
      var i := 0;
      while i < |entries|
        invariant 0 <= i <= |entries|
        invariant notFired == UnfiredTags(entries[..i])
        invariant |notFired| == 0 <==> forall j :: 0 <= j < i ==> entries[j].fired
      {
        assert entries[..i + 1][..i] == entries[..i];
        if !entries[i].fired {
          notFired := notFired + [entries[i].tag];
        }
        i := i + 1;
      }
      assert entries[..i] == entries;
      ok := |entries| != 0 && |notFired| == 0;
    }
  }

  function UnfiredTags(es: seq<Entry>): seq<string> {
    if es == [] then []
    else
      var last := es[|es| - 1];
      UnfiredTags(es[..|es| - 1]) + if last.fired then [] else [last.tag]
  }

  /** One label for each entry that has not fired, in the order of the entries. */
  lemma {:induction false} UnfiredInOrder(es: seq<Entry>, fs: seq<Entry>)
    ensures UnfiredTags(es + fs) == UnfiredTags(es) + UnfiredTags(fs)
    ensures |es| == 1 ==> UnfiredTags(es) == if es[0].fired then [] else [es[0].tag]
    decreases |fs|
  {
    if |es| == 1 {
      assert es[..0] == [] && UnfiredTags([]) == [];
    }
    if fs == [] {
      assert es + fs == es;
    } else {
      var front := fs[..|fs| - 1];
      assert (es + fs)[..|es + fs| - 1] == es + front;
      UnfiredInOrder(es, front);
    }
  }

  // ------------------------------------------------------ runs

  datatype Op = ArmOp(request: ArmRequest) | ObserveOp(client: string) | ClearOp

  datatype State = State(entries: seq<Entry>, nextId: nat)

  function Perform(s: State, op: Op): State {
    match op
    case ArmOp(q) => if Acceptable(q) then State(s.entries + [Armed(s.nextId + 1, q)], s.nextId + 1) else s
    case ObserveOp(client) => s.(entries := AfterCommit(s.entries, client))
    case ClearOp => s.(entries := [])
  }

  /** The registry after the first `k` operations. */
  function After(ops: seq<Op>, k: nat): State
    requires k <= |ops|
  {
    if k == 0 then State([], 0) else Perform(After(ops, k - 1), ops[k - 1])
  }

  /** The id fired by operation `k`, if it is a COMMIT that fires one. */
  function FiredId(ops: seq<Op>, k: nat): Option<nat>
    requires k < |ops|
  {
    var es := After(ops, k).entries;
    if ops[k].ObserveOp? && FireIndex(es) < |es| then Some(es[FireIndex(es)].id) else None
  }

  ghost predicate Sound(s: State) {
    && (forall i :: 0 <= i < |s.entries| ==> SoundEntry(s.entries[i]) && s.entries[i].id <= s.nextId)
    && (forall i, j :: 0 <= i < j < |s.entries| ==> s.entries[i].id < s.entries[j].id)
  }

  /** Armed means not yet there; fired means fired once, on its n-th counted COMMIT. */
  ghost predicate SoundEntry(e: Entry) {
    && e.armed == !e.fired && e.matchNth >= 1
    && (e.armed ==> e.seenSinceArm < e.matchNth && e.fireCount == 0)
    && (e.fired ==> e.seenSinceArm == e.matchNth == e.matchedNth && e.fireCount == 1)
  }

  lemma {:induction false} AlwaysSound(ops: seq<Op>, k: nat)
    requires k <= |ops|
    ensures Sound(After(ops, k))
  {
    if k > 0 {
      AlwaysSound(ops, k - 1);
      PerformKeepsSound(After(ops, k - 1), ops[k - 1]);
    }
  }

  lemma PerformKeepsSound(s: State, op: Op)
    requires Sound(s)
    ensures Sound(Perform(s, op))
  {}

  /** The k-th accepted arm of a run gets id k, whatever was cleared in between. */
  lemma {:induction false} IdsCountArms(ops: seq<Op>, k: nat)
    requires k <= |ops|
    ensures After(ops, k).nextId == ArmsAccepted(ops, k)
    ensures k > 0 && ops[k - 1].ArmOp? && Acceptable(ops[k - 1].request) ==>
              var es := After(ops, k).entries;
              |es| > 0 && es[|es| - 1].id == ArmsAccepted(ops, k) == ArmsAccepted(ops, k - 1) + 1
  {
    if k > 0 {
      IdsCountArms(ops, k - 1);
    }
  }

  function ArmsAccepted(ops: seq<Op>, k: nat): nat
    requires k <= |ops|
  {
    if k == 0 then 0
    else ArmsAccepted(ops, k - 1) + if ops[k - 1].ArmOp? && Acceptable(ops[k - 1].request) then 1 else 0
  }

  /** How many COMMITs in `a .. b` were not taken by an entry armed before entry `id`. */
  function CommitsFor(ops: seq<Op>, a: nat, b: nat, id: nat): nat
    requires a <= b <= |ops|
    decreases b
  {
    if a == b then 0
    else CommitsFor(ops, a, b - 1, id) + if CountsFor(ops, b - 1, id) then 1 else 0
  }

  predicate CountsFor(ops: seq<Op>, k: nat, id: nat)
    requires k < |ops|
  {
    ops[k].ObserveOp? && (FiredId(ops, k) == None || FiredId(ops, k).value >= id)
  }

  ghost predicate NoClear(ops: seq<Op>, a: nat, b: nat)
    requires a <= b <= |ops|
  {
    forall k :: a <= k < b ==> !ops[k].ClearOp?
  }

  /** The entry armed by operation `a` sits at this index until the next clear. */
  function IndexOf(ops: seq<Op>, a: nat): nat
    requires a < |ops|
  {
    |After(ops, a).entries|
  }

  /** How long the request asks the connection to be held; not at all without the holding action. */
  function HoldFor(q: ArmRequest): int {
    if q.action == Some(DropAndHoldAfterForward) then q.holdMs else 0
  }

  /** The entry carries what the request asked for. */
  predicate Carries(e: Entry, q: ArmRequest) {
    e.tag == q.tag && e.matchNth == q.nth && Some(e.action) == q.action && e.holdMs == HoldFor(q)
  }

  /** Where the entry armed at `a` stands after `b`: pending with the COMMITs counted for
      it, or fired once those reached its n. */
  ghost predicate Stands(ops: seq<Op>, a: nat, b: nat)
    requires a < b <= |ops| && ops[a].ArmOp? && Acceptable(ops[a].request)
  {
    var es := After(ops, b).entries;
    var (i, id) := (IndexOf(ops, a), After(ops, a).nextId + 1);
    var n := CommitsFor(ops, a + 1, b, id);
    && i < |es| && es[i].id == id && Carries(es[i], ops[a].request)
    && (es[i].fired <==> n >= ops[a].request.nth)
    && (es[i].armed ==> es[i].seenSinceArm == n)
  }

  lemma {:induction false} EntryStands(ops: seq<Op>, a: nat, b: nat)
    requires a < b <= |ops| && ops[a].ArmOp? && Acceptable(ops[a].request) && NoClear(ops, a, b)
    ensures Stands(ops, a, b)
    decreases b
  {
    AlwaysSound(ops, b);
    if b > a + 1 {
      EntryStands(ops, a, b - 1);
      AlwaysSound(ops, b - 1);
      StandsStep(ops, a, b - 1);
    }
  }

  lemma StandsStep(ops: seq<Op>, a: nat, b: nat)
    requires a < b < |ops| && ops[a].ArmOp? && Acceptable(ops[a].request) && !ops[b].ClearOp?
    requires Stands(ops, a, b) && Sound(After(ops, b))
    ensures Stands(ops, a, b + 1)
  {
    var es := After(ops, b).entries;
    var i := IndexOf(ops, a);
    if ops[b].ObserveOp? {
      var k := FireIndex(es);
      assert k < |es| && k < i ==> es[k].id < es[i].id;
      assert k < |es| && k > i ==> es[k].id > es[i].id;
    }
  }

  /** One-shot exactness: the entry armed at `a` is fired by COMMIT `b` if and only if no
      entry armed earlier fires there and this is the n-th COMMIT since `a` that no
      earlier entry took. */
  lemma FiresExactlyOnTheNth(ops: seq<Op>, a: nat, b: nat)
    requires a < b < |ops| && ops[a].ArmOp? && Acceptable(ops[a].request) && NoClear(ops, a, b)
    requires ops[b].ObserveOp?
    ensures var id := After(ops, a).nextId + 1;
            FiredId(ops, b) == Some(id) <==>
            CountsFor(ops, b, id) && CommitsFor(ops, a + 1, b, id) + 1 == ops[a].request.nth
  {
    EntryStands(ops, a, b);
    AlwaysSound(ops, b);
    var es := After(ops, b).entries;
    var (i, k) := (IndexOf(ops, a), FireIndex(After(ops, b).entries));
    assert k < |es| && k < i ==> es[k].id < es[i].id;
    assert k < |es| && k > i ==> es[k].id > es[i].id;
  }

  /**
   When an armed request fires, the pump is told its id, its label, its n, its action and its
   time to hold, and the registry records the client whose COMMIT it was.
   */
  lemma FireCarriesTheRequest(ops: seq<Op>, a: nat, b: nat)
    requires a < b < |ops| && ops[a].ArmOp? && Acceptable(ops[a].request) && NoClear(ops, a, b)
    requires ops[b].ObserveOp? && FiredId(ops, b) == Some(After(ops, a).nextId + 1)
    ensures var (q, id, client) := (ops[a].request, After(ops, a).nextId + 1, ops[b].client);
            && FiresNow(After(ops, b).entries, client)
            == Some(FireResult(id, q.tag, q.nth, q.action.value, HoldFor(q)))
            && IndexOf(ops, a) < |After(ops, b + 1).entries|
            && var e := After(ops, b + 1).entries[IndexOf(ops, a)];
               && e.id == id && e.fired && !e.armed && e.matchedClient == client && e.matchedNth == q.nth
               && e.bytesForwarded == 11 && e.responseBytesDropped == -1
  {
    hide CommitsFor, After;
    EntryStands(ops, a, b);
    AlwaysSound(ops, b);
    AfterStep(ops, b);
    var es := After(ops, b).entries;
    var (i, k) := (IndexOf(ops, a), FireIndex(es));
    assert k == i && SoundEntry(es[i]);
  }

  lemma AfterStep(ops: seq<Op>, k: nat)
    requires k < |ops|
    ensures After(ops, k + 1) == Perform(After(ops, k), ops[k])
  {}

  /** COMMITs in `a .. b`, whoever took them: what the documented "counts from arm" says. */
  function AllCommits(ops: seq<Op>, a: nat, b: nat): nat
    requires a <= b <= |ops|
    decreases b
  {
    if a == b then 0 else AllCommits(ops, a, b - 1) + if ops[b - 1].ObserveOp? then 1 else 0
  }

  ghost predicate TakenEarlier(ops: seq<Op>, k: nat, id: nat)
    requires k < |ops|
  {
    FiredId(ops, k).Some? && FiredId(ops, k).value < id
  }

  lemma {:induction false} CountsAgreeUnlessTaken(ops: seq<Op>, a: nat, b: nat, id: nat)
    requires a <= b <= |ops|
    ensures CommitsFor(ops, a, b, id) <= AllCommits(ops, a, b)
    ensures CommitsFor(ops, a, b, id) == AllCommits(ops, a, b) <==>
            forall k :: a <= k < b ==> !TakenEarlier(ops, k, id)
    decreases b
  {
    if a < b {
      CountsAgreeUnlessTaken(ops, a, b - 1, id);
      assert TakenEarlier(ops, b - 1, id) <==> ops[b - 1].ObserveOp? && !CountsFor(ops, b - 1, id);
    }
  }

  /** COMMIT `b`, the n-th of all since `a`, fires the entry if and only if none of those n
      COMMITs was taken by an entry armed before it. */
  lemma NthIsMetUnlessTaken(ops: seq<Op>, a: nat, b: nat)
    requires a < b < |ops| && ops[a].ArmOp? && Acceptable(ops[a].request) && NoClear(ops, a, b)
    requires ops[b].ObserveOp? && AllCommits(ops, a + 1, b + 1) == ops[a].request.nth
    ensures var id := After(ops, a).nextId + 1;
            FiredId(ops, b) == Some(id) <==> NoneTaken(ops, a, b + 1, id)
  {
    var id := After(ops, a).nextId + 1;
    FiresExactlyOnTheNth(ops, a, b);
    CountsAgreeUnlessTaken(ops, a + 1, b + 1, id);
    CountsAgreeUnlessTaken(ops, a + 1, b, id);
  }

  /** No operation behind `a` and before `m` fires an entry older than `id`. */
  ghost predicate NoneTaken(ops: seq<Op>, a: nat, m: nat, id: nat)
    requires m <= |ops|
  {
    forall k :: a < k < m ==> !TakenEarlier(ops, k, id)
  }

  /** A pending entry after `c` more COMMITs that only counted. */
  function CountedBy(e: Entry, c: nat): Entry {
    if Pending(e) then e.(seenSinceArm := e.seenSinceArm + c) else e
  }

  /** While none of them fires, the older entries are only counted, by every COMMIT. */
  lemma {:induction false} OlderAreOnlyCounted(ops: seq<Op>, a: nat, m: nat, i: nat)
    requires a < m <= |ops| && ops[a].ArmOp? && NoClear(ops, a, m)
    requires i < |After(ops, a).entries| && NoneTaken(ops, a, m, After(ops, a).nextId + 1)
    ensures i < |After(ops, m).entries|
    ensures After(ops, m).entries[i] == CountedBy(After(ops, a).entries[i], AllCommits(ops, a + 1, m))
    decreases m
  {
    if m > a + 1 {
      OlderAreOnlyCounted(ops, a, m - 1, i);
      if ops[m - 1].ObserveOp? {
        OlderStaysBehind(ops, a, m - 1, i);
      }
    }
  }

  /** A COMMIT that fires no older entry fires, if any, one behind all of them. */
  lemma OlderStaysBehind(ops: seq<Op>, a: nat, m: nat, i: nat)
    requires a < m < |ops| && i < |After(ops, a).entries| && i < |After(ops, m).entries|
    requires After(ops, m).entries[i].id == After(ops, a).entries[i].id
    requires ops[m].ObserveOp? && !TakenEarlier(ops, m, After(ops, a).nextId + 1)
    ensures i < FireIndex(After(ops, m).entries)
  {
    hide After;
    AlwaysSound(ops, a);
    AlwaysSound(ops, m);
  }

  /** What can be read off the registry when arming: every older pending entry has more
      COMMITs to wait for than the new one. */
  ghost predicate Uncontended(es: seq<Entry>, nth: int) {
    forall e :: e in es && Pending(e) ==> e.matchNth - e.seenSinceArm > nth
  }

  /** The first older entry to take a COMMIT had as many to wait for as there have been. */
  lemma TakenWasDue(ops: seq<Op>, a: nat, k: nat) returns (e: Entry)
    requires a < k < |ops| && ops[a].ArmOp? && NoClear(ops, a, k)
    requires NoneTaken(ops, a, k, After(ops, a).nextId + 1) && TakenEarlier(ops, k, After(ops, a).nextId + 1)
    ensures e in After(ops, a).entries && Pending(e)
    ensures e.matchNth - e.seenSinceArm == AllCommits(ops, a + 1, k + 1)
  {
    var (es, older) := (After(ops, k).entries, After(ops, a).entries);
    var j := FireIndex(es);
    if j >= |older| {
      FiredBehindIsYounger(ops, a, k);
      assert false;
    }
    OlderAreOnlyCounted(ops, a, k, j);
    e := older[j];
  }

  lemma FiredBehindIsYounger(ops: seq<Op>, a: nat, k: nat)
    requires a < k < |ops| && ops[a].ArmOp? && NoClear(ops, a, k)
    requires |After(ops, a).entries| <= FireIndex(After(ops, k).entries) < |After(ops, k).entries|
    ensures After(ops, k).entries[FireIndex(After(ops, k).entries)].id > After(ops, a).nextId
  {
    YoungerStandBehind(ops, a, k, FireIndex(After(ops, k).entries));
  }

  lemma {:induction false} YoungerStandBehind(ops: seq<Op>, a: nat, m: nat, j: nat)
    requires a <= m <= |ops| && NoClear(ops, a, m) && |After(ops, a).entries| <= j < |After(ops, m).entries|
    ensures After(ops, m).entries[j].id > After(ops, a).nextId
    decreases m
  {
    hide FireIndex;
    if m > a {
      NextIdGrows(ops, a, m - 1);
      if j < |After(ops, m - 1).entries| {
        YoungerStandBehind(ops, a, m - 1, j);
      }
    }
  }

  lemma {:induction false} NextIdGrows(ops: seq<Op>, a: nat, m: nat)
    requires a <= m <= |ops|
    ensures After(ops, a).nextId <= After(ops, m).nextId
    decreases m
  {
    if m > a {
      NextIdGrows(ops, a, m - 1);
    }
  }

  /** If every older entry waits for more COMMITs than there are, none of them takes one. */
  lemma {:induction false} UncontendedTakesNone(ops: seq<Op>, a: nat, m: nat, nth: int)
    requires a < m <= |ops| && ops[a].ArmOp? && NoClear(ops, a, m)
    requires Uncontended(After(ops, a).entries, nth) && AllCommits(ops, a + 1, m) <= nth
    ensures NoneTaken(ops, a, m, After(ops, a).nextId + 1)
    decreases m
  {
    if m > a + 1 {
      UncontendedTakesNone(ops, a, m - 1, nth);
      if TakenEarlier(ops, m - 1, After(ops, a).nextId + 1) {
        var e := TakenWasDue(ops, a, m - 1);
        assert e in After(ops, a).entries;
        assert false;
      }
    }
  }

  /** If they take none of the COMMITs up to `m`, all of them waited for more. */
  lemma NoneTakenMeansUncontended(ops: seq<Op>, a: nat, m: nat)
    requires a < m <= |ops| && ops[a].ArmOp? && NoClear(ops, a, m)
    requires NoneTaken(ops, a, m, After(ops, a).nextId + 1)
    ensures Uncontended(After(ops, a).entries, AllCommits(ops, a + 1, m))
  {
    forall e | e in After(ops, a).entries && Pending(e)
      ensures e.matchNth - e.seenSinceArm > AllCommits(ops, a + 1, m)
    {
      var i :| 0 <= i < |After(ops, a).entries| && After(ops, a).entries[i] == e;
      OlderAreOnlyCounted(ops, a, m, i);
      AlwaysSound(ops, m);
      assert SoundEntry(After(ops, m).entries[i]);
    }
  }

  /** The documented count, "the n-th COMMIT since arming", is met if and only if at the
      time of arming every older pending entry had more than n COMMITs to wait for. */
  lemma DocumentedNthHoldsExactlyWhenUncontended(ops: seq<Op>, a: nat, b: nat)
    requires a < b < |ops| && ops[a].ArmOp? && Acceptable(ops[a].request) && NoClear(ops, a, b)
    requires ops[b].ObserveOp? && AllCommits(ops, a + 1, b + 1) == ops[a].request.nth
    ensures FiredId(ops, b) == Some(After(ops, a).nextId + 1)
       <==> Uncontended(After(ops, a).entries, ops[a].request.nth)
  {
    hide After, FiredId, AllCommits, NoneTaken, Uncontended;
    NthIsMetUnlessTaken(ops, a, b);
    if NoneTaken(ops, a, b + 1, After(ops, a).nextId + 1) {
      NoneTakenMeansUncontended(ops, a, b + 1);
    }
    if Uncontended(After(ops, a).entries, ops[a].request.nth) {
      UncontendedTakesNone(ops, a, b + 1, ops[a].request.nth);
    }
  }

  lemma AfterCommitOfTwo(e: Entry, f: Entry, client: string)
    ensures FireIndex([e, f]) == if Due(e) then 0 else if Due(f) then 1 else 2
    ensures AfterCommit([e, f], client)
         == if Due(e) then [Fired(e, client), f]
            else [if Pending(e) then Counted(e) else e,
                  if Due(f) then Fired(f, client) else if Pending(f) then Counted(f) else f]
  {
    assert [e, f][1..] == [f] && [f][1..] == [];
  }

  lemma BothArmed(ops: seq<Op>, e: Entry, f: Entry)
    requires |ops| >= 2 && ops[0].ArmOp? && ops[1].ArmOp?
    requires Acceptable(ops[0].request) && Acceptable(ops[1].request)
    requires e == Armed(1, ops[0].request) && f == Armed(2, ops[1].request)
    ensures After(ops, 2).entries == [e, f]
  {
    assert After(ops, 0) == State([], 0);
    assert After(ops, 1) == State([e], 1);
  }

  lemma AfterObserve(ops: seq<Op>, k: nat)
    requires k < |ops| && ops[k].ObserveOp?
    ensures After(ops, k + 1).entries == AfterCommit(After(ops, k).entries, ops[k].client)
  {
    hide AfterCommit;
  }

  /** Two failpoints armed together for COMMITs 1 and 2: the second fires on the third. */
  lemma SecondFailpointIsLate(q: ArmRequest, r: ArmRequest, client: string)
    requires Acceptable(q) && Acceptable(r) && q.nth == 1 && r.nth == 2
    ensures var ops := [ArmOp(q), ArmOp(r), ObserveOp(client), ObserveOp(client), ObserveOp(client)];
            FiredId(ops, 2) == Some(1) && FiredId(ops, 3) == None && FiredId(ops, 4) == Some(2)
  {
    var ops := [ArmOp(q), ArmOp(r), ObserveOp(client), ObserveOp(client), ObserveOp(client)];
    var (e, f) := (Armed(1, q), Armed(2, r));
    hide AfterCommit, FireIndex, After;
    BothArmed(ops, e, f);
    AfterCommitOfTwo(e, f, client);
    AfterObserve(ops, 2);
    AfterCommitOfTwo(Fired(e, client), f, client);
    AfterObserve(ops, 3);
    AfterCommitOfTwo(Fired(e, client), Counted(f), client);
  }
}
