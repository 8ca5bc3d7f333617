module SlabNode {
  /**
   One pass over a node: slab_defrag_node of patches/kernel/slab-object-mobility.patch. The slabs of the node are known
   by number, and the partial list is the ones whose `listed` is true; adding a slab that is on it, or removing one that
   is not, would corrupt it, so that neither happens is a precondition of the two operations here.
   */
  import opened SlabPass
  import opened SlabSpec
  import opened SlabMoves

  const GIVE_UP: nat := 8

  // ----- what the pass makes of the node -----

  /** What the others do between one slab and the next, on every slab, and during the work on that one. */
  datatype Turn = Turn(owners: seq<seq<OwnerStep>>, env: Env)

  const QUIET := Turn([], Env([], false, [], false))

  function NextTurn(turns: seq<Turn>): Turn { if turns == [] then QUIET else turns[0] }

  function LaterTurns(turns: seq<Turn>): seq<Turn> { if turns == [] then [] else turns[1..] }

  function StepsOf(steps: seq<seq<OwnerStep>>, i: nat): seq<OwnerStep> { if i < |steps| then steps[i] else [] }

  function AllOwners(vs: seq<View>, steps: seq<seq<OwnerStep>>): seq<View> {
    seq(|vs|, i requires 0 <= i < |vs| => Owners(vs[i], StepsOf(steps, i)))
  }

  /** Worth working on: on the list, and no more in use, in hundredths of an object, than the limit. */
  predicate Sparse(v: View, limit: nat) { v.listed && !((|v.tags| - |v.free|) * 100 > limit) }

  /** The sparse ones of the first `k` slabs, the last found first. */
  function Chosen(vs: seq<View>, limit: nat, k: nat): seq<nat>
    requires k <= |vs|
  {
    if k == 0 then []
    else
      var c := Chosen(vs, limit, k - 1);
      if Sparse(vs[k - 1], limit) then [k - 1] + c else c
  }

  function Relisted(vs: seq<View>, cands: seq<nat>, listed: bool): seq<View> {
    seq(|vs|, i requires 0 <= i < |vs| => if i in cands then vs[i].(listed := listed) else vs[i])
  }

  datatype Node = Node(vs: seq<View>, cands: seq<nat>, outcomes: seq<bool>, moved: nat)

  /** The work on the first candidate. */
  function OneWorked(s: Node, t: Turn): Node
    requires s.cands != []
  {
    var vs := AllOwners(s.vs, t.owners);
    if s.cands[0] >= |vs| then s.(cands := s.cands[1..])
    else
      var o := Evacuated(vs[s.cands[0]], t.env);
      Node(vs[s.cands[0] := o.v], s.cands[1..], s.outcomes + [o.emptied], s.moved + |o.vacated|)
  }

  /** How many slabs in a row kept an object, the last one among them. */
  function Refused(outcomes: seq<bool>): nat {
    if outcomes == [] || outcomes[|outcomes| - 1] then 0 else Refused(outcomes[..|outcomes| - 1]) + 1
  }

  /** The loop over the candidates. */
  function Worked(s: Node, turns: seq<Turn>): Node
    decreases |s.cands|
  {
    if s.cands == [] then s
    else
      var s' := OneWorked(s, NextTurn(turns));
      if Refused(s'.outcomes) >= GIVE_UP then s' else Worked(s', LaterTurns(turns))
  }

  /** slab_defrag_node. */
  function Defragged(vs: seq<View>, limit: nat, turns: seq<Turn>): Node {
    var cands := Chosen(vs, limit, |vs|);
    var s := Worked(Node(Relisted(vs, cands, false), cands, [], 0), turns);
    s.(vs := Relisted(s.vs, s.cands, true))
  }

  ghost predicate DistinctCands(cands: seq<nat>, n: nat) {
    (forall i :: 0 <= i < |cands| ==> cands[i] < n) && forall i, j :: 0 <= i < j < |cands| ==> cands[i] != cands[j]
  }

  /** A slab that is not chosen is as it was, and choosing it takes it off the list. */
  lemma RelistedOne(vs: seq<View>, c: seq<nat>, k: nat)
    requires k < |vs| && k !in c
    ensures Relisted(vs, c, false)[k] == vs[k]
    ensures Relisted(vs, [k] + c, false) == Relisted(vs, c, false)[k := vs[k].(listed := false)]
  {
    var c' := [k] + c;
    forall i | 0 <= i < |vs| ensures i in c' <==> i == k || i in c { if i == k { assert c'[0] == k; } }
  }

  lemma RelistedNone(vs: seq<View>)
    ensures Relisted(vs, [], false) == vs
  {
  }

  lemma {:induction false} ChosenAre(vs: seq<View>, limit: nat, k: nat)
    requires k <= |vs|
    ensures var c := Chosen(vs, limit, k);
            DistinctCands(c, k) && forall i: nat :: i in c <==> i < k && Sparse(vs[i], limit)
  {
    if k > 0 {
      ChosenAre(vs, limit, k - 1);
      var c := Chosen(vs, limit, k - 1);
      forall i | 0 <= i < |c| ensures c[i] < k - 1 { }
    }
  }

  lemma ChosenBefore(vs: seq<View>, limit: nat, k: nat)
    requires k <= |vs|
    ensures k !in Chosen(vs, limit, k)
  {
    ChosenAre(vs, limit, k);
  }

  // ----- when it stops -----

  /** The last eight slabs tried in a row kept an object. */
  predicate Hopeless(outcomes: seq<bool>) {
    |outcomes| >= GIVE_UP && forall k :: |outcomes| - GIVE_UP <= k < |outcomes| ==> !outcomes[k]
  }

  lemma {:induction false} RefusedMeans(outcomes: seq<bool>)
    ensures Refused(outcomes) <= |outcomes|
    ensures forall k :: |outcomes| - Refused(outcomes) <= k < |outcomes| ==> !outcomes[k]
    ensures Refused(outcomes) < |outcomes| ==> outcomes[|outcomes| - 1 - Refused(outcomes)]
    ensures Refused(outcomes) >= GIVE_UP <==> Hopeless(outcomes)
  {
    if outcomes != [] { RefusedMeans(outcomes[..|outcomes| - 1]); }
  }

  lemma RefusedNext(outcomes: seq<bool>, emptied: bool)
    ensures Refused(outcomes + [emptied]) == if emptied then 0 else Refused(outcomes) + 1
  {
    assert (outcomes + [emptied])[..|outcomes|] == outcomes;
  }

  /** From `s` the pass came to `s'` through the first of the candidates, never going on after eight that kept an
      object. */
  ghost predicate Through(s: Node, s': Node) {
    && |s.outcomes| <= |s'.outcomes| && s'.outcomes[..|s.outcomes|] == s.outcomes
    && |s'.outcomes| + |s'.cands| == |s.outcomes| + |s.cands| && s'.cands == s.cands[|s'.outcomes| - |s.outcomes|..]
    && forall k :: |s.outcomes| <= k < |s'.outcomes| ==> !Hopeless(s'.outcomes[..k])
  }

  lemma ThroughOne(s: Node, t: Turn)
    requires s.cands != [] && DistinctCands(s.cands, |s.vs|) && Refused(s.outcomes) < GIVE_UP
    ensures Through(s, OneWorked(s, t))
  {
    RefusedMeans(s.outcomes);
  }

  lemma ThroughOn(s: Node, s1: Node, s2: Node)
    requires Through(s, s1) && Through(s1, s2)
    ensures Through(s, s2)
  {
    assert s2.outcomes[..|s.outcomes|] == s2.outcomes[..|s1.outcomes|][..|s.outcomes|];
    forall k | |s.outcomes| <= k < |s1.outcomes| ensures !Hopeless(s2.outcomes[..k]) {
      assert s2.outcomes[..k] == s2.outcomes[..|s1.outcomes|][..k];
    }
  }

  /** The pass works through the candidates in order. It leaves some of them alone only when it has come to eight slabs
      in a row that kept an object, and never goes on after eight such. */
  lemma {:induction false} WorkedStops(s: Node, turns: seq<Turn>)
    requires DistinctCands(s.cands, |s.vs|) && Refused(s.outcomes) < GIVE_UP
    ensures var s' := Worked(s, turns); Through(s, s') && (s'.cands != [] ==> Hopeless(s'.outcomes))
    decreases |s.cands|
  {
    if s.cands != [] {
      var s1 := OneWorked(s, NextTurn(turns));
      ThroughOne(s, NextTurn(turns));
      RefusedMeans(s1.outcomes);
      if Refused(s1.outcomes) < GIVE_UP {
        FirstAside(s.cands, |s.vs|);
        WorkedStops(s1, LaterTurns(turns));
        ThroughOn(s, s1, Worked(s1, LaterTurns(turns)));
      }
    }
  }

  // ----- what it keeps -----

  /** A slab nobody is working on, or one of the candidates of the pass. */
  ghost predicate Quiet(v: View, candidate: bool) {
    && Fit(v) && (forall x :: 0 <= x < |v.tags| ==> v.tags[x] != Pass)
    && if candidate then Waiting(v) else Settled(v)
  }

  ghost predicate AllQuiet(vs: seq<View>, cands: seq<nat>) {
    DistinctCands(cands, |vs|) && forall i :: 0 <= i < |vs| ==> Quiet(vs[i], i in cands)
  }

  lemma OwnersQuiet(v: View, steps: seq<OwnerStep>, candidate: bool)
    requires Quiet(v, candidate)
    ensures Quiet(Owners(v, steps), candidate)
  {
    OwnersKeep(v, steps);
  }

  lemma AllOwnersQuiet(vs: seq<View>, steps: seq<seq<OwnerStep>>, cands: seq<nat>)
    requires AllQuiet(vs, cands)
    ensures AllQuiet(AllOwners(vs, steps), cands)
  {
    forall i | 0 <= i < |vs| ensures Quiet(AllOwners(vs, steps)[i], i in cands) {
      OwnersQuiet(vs[i], StepsOf(steps, i), i in cands);
    }
  }

  lemma FirstAside(cands: seq<nat>, n: nat)
    requires cands != [] && DistinctCands(cands, n)
    ensures DistinctCands(cands[1..], n) && forall c :: c in cands[1..] <==> c in cands && c != cands[0]
  {
    forall c | c in cands && c != cands[0] ensures c in cands[1..] {
      var k :| 0 <= k < |cands| && cands[k] == c;
      assert cands[1..][k - 1] == c;
    }
  }

  lemma OneWorkedQuiet(s: Node, t: Turn)
    requires s.cands != [] && AllQuiet(s.vs, s.cands)
    ensures AllQuiet(OneWorked(s, t).vs, OneWorked(s, t).cands) && |OneWorked(s, t).vs| == |s.vs|
  {
    AllOwnersQuiet(s.vs, t.owners, s.cands);
    FirstAside(s.cands, |s.vs|);
    var vs := AllOwners(s.vs, t.owners);
    assert s.cands[0] in s.cands;
    EvacuatedKeeps(vs[s.cands[0]], t.env);
  }

  lemma {:induction false} WorkedQuiet(s: Node, turns: seq<Turn>)
    requires AllQuiet(s.vs, s.cands)
    ensures AllQuiet(Worked(s, turns).vs, Worked(s, turns).cands) && |Worked(s, turns).vs| == |s.vs|
    decreases |s.cands|
  {
    if s.cands != [] {
      OneWorkedQuiet(s, NextTurn(turns));
      var s' := OneWorked(s, NextTurn(turns));
      if Refused(s'.outcomes) < GIVE_UP { WorkedQuiet(s', LaterTurns(turns)); }
    }
  }

  lemma ChosenQuiet(vs: seq<View>, limit: nat)
    requires AllQuiet(vs, [])
    ensures var cands := Chosen(vs, limit, |vs|); AllQuiet(Relisted(vs, cands, false), cands)
  {
    ChosenAre(vs, limit, |vs|);
    var cands := Chosen(vs, limit, |vs|);
    forall i | 0 <= i < |vs| ensures Quiet(Relisted(vs, cands, false)[i], i in cands) { assert Quiet(vs[i], false); }
  }

  lemma ReturnedQuiet(vs: seq<View>, cands: seq<nat>)
    requires AllQuiet(vs, cands)
    ensures AllQuiet(Relisted(vs, cands, true), [])
  {
    forall i | 0 <= i < |vs| ensures Quiet(Relisted(vs, cands, true)[i], false) { assert Quiet(vs[i], i in cands); }
  }

  /** Whatever the pass did, and wherever it gave up, it leaves no slab half done: each one with something free is on
      the list, or was discarded, and the pass has no object any more. */
  lemma DefraggedQuiet(vs: seq<View>, limit: nat, turns: seq<Turn>)
    requires AllQuiet(vs, [])
    ensures AllQuiet(Defragged(vs, limit, turns).vs, []) && |Defragged(vs, limit, turns).vs| == |vs|
  {
    ChosenQuiet(vs, limit);
    var cands := Chosen(vs, limit, |vs|);
    var s := Node(Relisted(vs, cands, false), cands, [], 0);
    WorkedQuiet(s, turns);
    ReturnedQuiet(Worked(s, turns).vs, Worked(s, turns).cands);
  }

  // ----- a pass nobody stands in the way of -----

  /** What is in use on the slabs of `cands`. */
  function InUseOn(vs: seq<View>, cands: seq<nat>): nat {
    if cands == [] then 0
    else
      var c := cands[0];
      (if c < |vs| then |InUseOf(vs[c].tags)| else 0) + InUseOn(vs, cands[1..])
  }

  /** The owners do nothing, there is memory for every object of a slab of `size`, and the callback agrees. */
  ghost predicate Willing(t: Turn, size: nat) {
    && t.owners == [] && |t.env.rounds| >= size
    && forall k :: 0 <= k < |t.env.rounds| ==>
         var r := t.env.rounds[k];
         !r.memory.NoMemory? && r.agrees && r.before == [] && r.between == [] && r.during == []
  }

  lemma {:induction false} InUseAtMost(tags: seq<Tag>)
    ensures |InUseOf(tags)| <= |tags|
  {
    if tags != [] { InUseAtMost(tags[..|tags| - 1]); }
  }

  lemma OneWilling(v: View, t: Turn)
    requires Quiet(v, true) && !v.discarded && Willing(t, |v.tags|)
    ensures Evacuated(v, t.env).emptied && |Evacuated(v, t.env).vacated| == |InUseOf(v.tags)|
  {
    InUseAtMost(v.tags);
    forall k, o: int | 0 <= k < |InUseOf(v.tags)| ensures RoundSpares(t.env.rounds[k], o) { }
    StartLoops(v);
    WillingIsEmptied(v, t.env);
  }

  lemma {:induction false} InUseElsewhere(vs: seq<View>, cands: seq<nat>, c: nat, v: View)
    requires c < |vs| && c !in cands
    ensures InUseOn(vs[c := v], cands) == InUseOn(vs, cands)
  {
    if cands != [] { InUseElsewhere(vs, cands[1..], c, v); }
  }

  lemma NobodyElse(vs: seq<View>)
    ensures AllOwners(vs, []) == vs
  {
  }

  /** One candidate in such a pass. */
  lemma OneWorkedWilling(s: Node, t: Turn, size: nat)
    requires s.cands != [] && AllQuiet(s.vs, s.cands) && Willing(t, size)
    requires forall i :: 0 <= i < |s.vs| ==> |s.vs[i].tags| == size
    ensures var s' := OneWorked(s, t);
            && s'.outcomes == s.outcomes + [true] && s'.moved == s.moved + |InUseOf(s.vs[s.cands[0]].tags)|
            && InUseOn(s'.vs, s'.cands) == InUseOn(s.vs, s.cands[1..])
            && |s'.vs| == |s.vs| && forall i :: 0 <= i < |s'.vs| ==> |s'.vs[i].tags| == size
  {
    var c := s.cands[0];
    assert c in s.cands && Quiet(s.vs[c], true);
    NobodyElse(s.vs);
    OneWilling(s.vs[c], t);
    EvacuatedKeeps(s.vs[c], t.env);
    FirstAside(s.cands, |s.vs|);
    InUseElsewhere(s.vs, s.cands[1..], c, Evacuated(s.vs[c], t.env).v);
  }

  /** `n` more slabs were tried, and all of them emptied. */
  ghost predicate AllEmptied(was: seq<bool>, now: seq<bool>, n: nat) {
    |now| == |was| + n && now[..|was|] == was && forall k :: |was| <= k < |now| ==> now[k]
  }

  lemma AllEmptiedOn(was: seq<bool>, now: seq<bool>, n: nat)
    requires AllEmptied(was + [true], now, n)
    ensures AllEmptied(was, now, n + 1)
  {
    assert now[..|was|] == now[..|was| + 1][..|was|] && now[|was|] == now[..|was| + 1][|was|];
  }

  /** Then every candidate is emptied, none is given up on, and what was in use on them is what was moved. */
  lemma {:induction false} WorkedWilling(s: Node, turns: seq<Turn>, size: nat)
    requires AllQuiet(s.vs, s.cands) && |turns| >= |s.cands|
    requires forall k :: 0 <= k < |s.cands| ==> Willing(turns[k], size)
    requires forall i :: 0 <= i < |s.vs| ==> |s.vs[i].tags| == size
    ensures var s' := Worked(s, turns);
            && s'.cands == [] && s'.moved == s.moved + InUseOn(s.vs, s.cands)
            && AllEmptied(s.outcomes, s'.outcomes, |s.cands|)
    decreases |s.cands|
  {
    if s.cands != [] {
      var s1 := OneWorked(s, NextTurn(turns));
      OneWorkedWilling(s, NextTurn(turns), size);
      OneWorkedQuiet(s, NextTurn(turns));
      RefusedNext(s.outcomes, true);
      WorkedWilling(s1, LaterTurns(turns), size);
      AllEmptiedOn(s.outcomes, Worked(s1, LaterTurns(turns)).outcomes, |s.cands| - 1);
    }
  }

  /** Over the node: every listed slab with no more in use than the limit is emptied. */
  lemma DefraggedWilling(vs: seq<View>, limit: nat, turns: seq<Turn>, size: nat)
    requires AllQuiet(vs, []) && |turns| >= |vs| && forall k :: 0 <= k < |turns| ==> Willing(turns[k], size)
    requires forall i :: 0 <= i < |vs| ==> |vs[i].tags| == size
    ensures var cands := Chosen(vs, limit, |vs|);
            var s := Defragged(vs, limit, turns);
            && (forall i: nat ::
                  i in cands <==> i < |vs| && vs[i].listed && (|vs[i].tags| - |vs[i].free|) * 100 <= limit)
            && s.cands == [] && s.moved == InUseOn(vs, cands) && |s.outcomes| == |cands|
            && forall k :: 0 <= k < |s.outcomes| ==> s.outcomes[k]
  {
    var cands := Chosen(vs, limit, |vs|);
    ChosenAre(vs, limit, |vs|);
    ChosenQuiet(vs, limit);
    CandsFew(cands, |vs|);
    var vs' := Relisted(vs, cands, false);
    WorkedWilling(Node(vs', cands, [], 0), turns, size);
    InUseRelisted(vs, vs', cands);
  }

  lemma {:induction false} CandsFew(cands: seq<nat>, n: nat)
    requires DistinctCands(cands, n)
    ensures |cands| <= n
    decreases n
  {
    if cands != [] {
      assert cands[0] < n;
      if k :| 0 <= k < |cands| && cands[k] == n - 1 {
        var rest := cands[..k] + cands[k + 1..];
        assert DistinctCands(rest, n - 1);
        CandsFew(rest, n - 1);
      } else {
        CandsFew(cands, n - 1);
      }
    }
  }

  lemma {:induction false} InUseRelisted(vs: seq<View>, vs': seq<View>, cands: seq<nat>)
    requires |vs'| == |vs| && forall i :: 0 <= i < |vs| ==> vs'[i].tags == vs[i].tags
    ensures InUseOn(vs', cands) == InUseOn(vs, cands)
  {
    if cands != [] { InUseRelisted(vs, vs', cands[1..]); }
  }

  // ----- the code -----

  /** The slabs of a node are different memory and all of one size. */
  ghost predicate Apart(slabs: seq<Slab>, size: nat) {
    && (forall i :: 0 <= i < |slabs| ==> slabs[i].n == size)
    && (forall i, j :: 0 <= i < j < |slabs| ==> slabs[i] != slabs[j] && slabs[i].next != slabs[j].next)
  }

  ghost function Memory(slabs: seq<Slab>): set<object> {
    (set s | s in slabs :: s as object) + (set s | s in slabs :: s.next as object)
  }

  ghost function Views(slabs: seq<Slab>): (r: seq<View>)
    reads slabs
    ensures |r| == |slabs|
  {
    seq(|slabs|, i requires 0 <= i < |slabs| reads slabs => slabs[i].Abs())
  }

  ghost predicate Whole(slabs: seq<Slab>, size: nat)
    reads slabs, Memory(slabs)
  {
    Apart(slabs, size) && forall i :: 0 <= i < |slabs| ==> slabs[i].Valid()
  }

  ghost predicate Kept(slabs: seq<Slab>, size: nat, cands: seq<nat>)
    reads slabs, Memory(slabs)
  {
    Whole(slabs, size) && AllQuiet(Views(slabs), cands)
  }

  method RemovePartial(s: Slab)
    requires s.Valid() && s.listed && Settled(s.Abs()) && !s.discarded
    modifies s`listed
    ensures s.Valid() && s.Abs() == old(s.Abs()).(listed := false)
  {
    s.listed := false;
  }

  method AddPartial(s: Slab)
    requires s.Valid() && Waiting(s.Abs())
    modifies s`listed
    ensures s.Valid() && s.Abs() == old(s.Abs()).(listed := true)
  {
    s.listed := true;
  }

  /** One slab, taken off the list if it is sparse. */
  method TakeOff(slabs: seq<Slab>, size: nat, i: nat, maxOccupancy: nat) returns (sparse: bool)
    requires Whole(slabs, size) && i < |slabs| && Settled(slabs[i].Abs())
    modifies slabs[i]
    ensures Whole(slabs, size) && sparse == Sparse(old(slabs[i].Abs()), size * maxOccupancy)
    ensures sparse ==> Views(slabs) == old(Views(slabs))[i := old(slabs[i].Abs()).(listed := false)]
    ensures !sparse ==> Views(slabs) == old(Views(slabs))
  {
    var s := slabs[i];
    sparse := s.listed && !(s.inuse * 100 > s.n * maxOccupancy);
    if sparse {
      RemovePartial(s);
    }
  }

  /** One slab looked at: if it is sparse it becomes the first candidate. */
  method Consider(slabs: seq<Slab>, size: nat, i: nat, maxOccupancy: nat, cands0: seq<nat>, ghost vs: seq<View>)
    returns (cands: seq<nat>)
    requires Whole(slabs, size) && i < |slabs| == |vs| && Views(slabs) == Relisted(vs, cands0, false)
    requires i !in cands0 && Settled(vs[i])
    modifies slabs[i]
    ensures cands == if Sparse(vs[i], size * maxOccupancy) then [i] + cands0 else cands0
    ensures Whole(slabs, size) && Views(slabs) == Relisted(vs, cands, false)
  {
    RelistedOne(vs, cands0, i);
    cands := cands0;
    assert slabs[i].Abs() == Views(slabs)[i];
    var sparse := TakeOff(slabs, size, i, maxOccupancy);
    if sparse {
      cands := [i] + cands;
    }
  }

  /** The sparse slabs of the partial list are taken off it in one go. */
  method Choose(slabs: seq<Slab>, size: nat, maxOccupancy: nat) returns (cands: seq<nat>)
    requires Kept(slabs, size, [])
    modifies slabs
    ensures cands == Chosen(old(Views(slabs)), size * maxOccupancy, |slabs|)
    ensures Kept(slabs, size, cands) && Views(slabs) == Relisted(old(Views(slabs)), cands, false)
  {
    ghost var vs, limit := Views(slabs), size * maxOccupancy;
    cands := [];
    RelistedNone(vs);
    for i := 0 to |slabs|
      invariant cands == Chosen(vs, limit, i) && Whole(slabs, size) && Views(slabs) == Relisted(vs, cands, false)
    {
      ChosenBefore(vs, limit, i);
      assert Quiet(vs[i], false) && slabs[i] in slabs;
      cands := Consider(slabs, size, i, maxOccupancy, cands, vs);
    }
    ChosenQuiet(vs, limit);
  }

  /** The owners of one slab's objects. */
  method OneOwners(slabs: seq<Slab>, size: nat, i: nat, steps: seq<OwnerStep>, ghost candidate: bool)
    requires Whole(slabs, size) && i < |slabs| && Quiet(slabs[i].Abs(), candidate)
    modifies slabs[i], slabs[i].next
    ensures Whole(slabs, size) && slabs[i].Abs() == Owners(old(slabs[i].Abs()), steps)
    ensures forall k :: 0 <= k < |slabs| && k != i ==> slabs[k].Abs() == old(slabs[k].Abs())
  {
    slabs[i].Interfere(steps);
  }

  /** The owners of all the node's objects go on meanwhile. */
  method Meanwhile(slabs: seq<Slab>, size: nat, ghost cands: seq<nat>, steps: seq<seq<OwnerStep>>)
    requires Kept(slabs, size, cands)
    modifies Memory(slabs)
    ensures Kept(slabs, size, cands) && Views(slabs) == AllOwners(old(Views(slabs)), steps)
  {
    ghost var vs := Views(slabs);
    for i := 0 to |slabs|
      invariant Whole(slabs, size)
      invariant forall k :: 0 <= k < i ==> slabs[k].Abs() == Owners(vs[k], StepsOf(steps, k))
      invariant forall k :: i <= k < |slabs| ==> slabs[k].Abs() == vs[k]
    {
      assert Quiet(vs[i], i in cands) && slabs[i] in slabs;
      OneOwners(slabs, size, i, StepsOf(steps, i), i in cands);
    }
    AllOwnersQuiet(vs, steps, cands);
    assert Views(slabs) == AllOwners(vs, steps);
  }

  method OneEvacuated(slabs: seq<Slab>, size: nat, i: nat, bits: array<bool>, objs: array<int>, env: Env)
    returns (moved: nat, emptied: bool)
    requires Whole(slabs, size) && i < |slabs| && Quiet(slabs[i].Abs(), true)
    requires bits.Length == size <= objs.Length && objs !in Memory(slabs)
    modifies slabs[i], slabs[i].next, bits, objs
    ensures Whole(slabs, size) && moved <= objs.Length
    ensures Outcome(slabs[i].Abs(), objs[..moved], emptied) == Evacuated(old(slabs[i].Abs()), env)
    ensures Views(slabs) == old(Views(slabs))[i := slabs[i].Abs()]
  {
    assert slabs[i] in slabs;
    NotNext(slabs, objs);
    moved, emptied := slabs[i].Evacuate(bits, objs, env);
  }

  lemma NotNext(slabs: seq<Slab>, objs: array<int>)
    requires objs !in Memory(slabs)
    ensures forall k :: 0 <= k < |slabs| ==> slabs[k].next != objs
  {
    forall k | 0 <= k < |slabs| ensures slabs[k].next != objs { assert slabs[k] in slabs; }
  }

  /** One candidate, taken off the list of candidates. */
  method EvacuateFirst(slabs: seq<Slab>, size: nat, cands: seq<nat>, bits: array<bool>, objs: array<int>, t: Turn,
                       ghost s: Node)
    returns (moved: nat, emptied: bool)
    requires Kept(slabs, size, cands) && cands != [] && s.vs == Views(slabs) && s.cands == cands
    requires bits.Length == size <= objs.Length && objs !in Memory(slabs)
    modifies Memory(slabs), bits, objs
    ensures Kept(slabs, size, cands[1..])
    ensures Node(Views(slabs), cands[1..], s.outcomes + [emptied], s.moved + moved) == OneWorked(s, t)
  {
    Meanwhile(slabs, size, cands, t.owners);
    ghost var vs := Views(slabs);
    OneWorkedQuiet(s, t);
    var i := cands[0];
    assert i in cands && slabs[i] in slabs && Quiet(vs[i], true);
    moved, emptied := OneEvacuated(slabs, size, i, bits, objs, t.env);
  }

  /** The loop over the candidates; `outcomes` is what slab_evacuate reported, one slab after the other. */
  method Work(slabs: seq<Slab>, size: nat, cands0: seq<nat>, bits: array<bool>, objs: array<int>, turns0: seq<Turn>)
    returns (cands: seq<nat>, outcomes: seq<bool>, moved: nat)
    requires Kept(slabs, size, cands0) && bits.Length == size <= objs.Length && objs !in Memory(slabs)
    modifies Memory(slabs), bits, objs
    ensures Kept(slabs, size, cands)
    ensures Node(Views(slabs), cands, outcomes, moved) == Worked(Node(old(Views(slabs)), cands0, [], 0), turns0)
  {
    cands, outcomes, moved := cands0, [], 0;
    ghost var s0 := Node(Views(slabs), cands0, [], 0);
    ghost var s := s0;
    var refused, turns := 0, turns0;
    while cands != []
      invariant Kept(slabs, size, cands) && refused == Refused(outcomes) < GIVE_UP
      invariant s == Node(Views(slabs), cands, outcomes, moved) && Worked(s, turns) == Worked(s0, turns0)
      decreases |cands|
    {
      var got, emptied := EvacuateFirst(slabs, size, cands, bits, objs, NextTurn(turns), s);
      RefusedNext(outcomes, emptied);
      s := OneWorked(s, NextTurn(turns));
      moved := moved + got;
      outcomes := outcomes + [emptied];
      cands, turns := cands[1..], LaterTurns(turns);
      if emptied {
        refused := 0;
      } else {
        refused := refused + 1;
        if refused >= GIVE_UP {
          break;
        }
      }
    }
  }

  /** What the pass did not get to goes back on the partial list. */
  method PutBack(slabs: seq<Slab>, size: nat, cands: seq<nat>)
    requires Kept(slabs, size, cands)
    modifies slabs
    ensures Kept(slabs, size, []) && Views(slabs) == Relisted(old(Views(slabs)), cands, true)
  {
    ghost var vs := Views(slabs);
    for k := 0 to |cands|
      invariant Whole(slabs, size)
      invariant forall i :: 0 <= i < |slabs| ==>
                slabs[i].Abs() == if i in cands[..k] then vs[i].(listed := true) else vs[i]
    {
      var i := cands[k];
      assert i in cands && i !in cands[..k] && cands[..k + 1] == cands[..k] + [i];
      assert Quiet(vs[i], true) && slabs[i] in slabs;
      AddPartial(slabs[i]);
    }
    assert cands[..|cands|] == cands;
    ReturnedQuiet(vs, cands);
    assert Views(slabs) == Relisted(vs, cands, true);
  }

  /** slab_defrag_node. */
  method DefragNode(slabs: seq<Slab>, size: nat, maxOccupancy: nat, bits: array<bool>, objs: array<int>,
      turns: seq<Turn>)
    returns (moved: nat, outcomes: seq<bool>, cands: seq<nat>)
    requires Kept(slabs, size, []) && bits.Length == size <= objs.Length && objs !in Memory(slabs)
    modifies Memory(slabs), bits, objs
    ensures Node(Views(slabs), cands, outcomes, moved) == Defragged(old(Views(slabs)), size * maxOccupancy, turns)
    ensures Kept(slabs, size, [])
    ensures forall i :: 0 <= i < |slabs| ==>
              slabs[i].Idle() && (slabs[i].discarded || (slabs[i].listed <==> slabs[i].free != []))
  {
    ghost var vs := Views(slabs);
    assert forall s :: s in slabs ==> s in Memory(slabs);
    cands := Choose(slabs, size, maxOccupancy);
    cands, outcomes, moved := Work(slabs, size, cands, bits, objs, turns);
    PutBack(slabs, size, cands);
    forall i | 0 <= i < |slabs|
      ensures slabs[i].Idle() && (slabs[i].discarded || (slabs[i].listed <==> slabs[i].free != []))
    {
      assert Quiet(Views(slabs)[i], false);
    }
  }
}
