/** Runs: borrow counters against pool states under arbitrary interleaving of the allocator's
    locked steps. Each step is atomic; between the arming and the publishing of a maintenance
    operation any other step may run. */
module Runs {
  import opened State

  datatype PoolCtl = PoolCtl(state: PoolState, borrows: nat)
  datatype ObjCtl = ObjCtl(live: bool, pool: nat, active: nat, address: nat)
  // A borrow that some holder has begun and not yet ended: the object and the address it got.
  datatype Held = Held(obj: nat, address: nat)
  datatype Sys = Sys(ps: seq<PoolCtl>, os: seq<ObjCtl>, held: map<nat, Held>)

  predicate InMaintenance(st: PoolState) {
    st.Compacting? || st.Merging? || st.Splitting?
  }

  predicate IsSettled(st: PoolState) {
    st.Running? || st.Paused?
  }

  datatype Step =
    | Begin(h: nat, o: nat)
    | End(h: nat)
    | PauseStep(p: nat)
    | ResumeStep(p: nat)
    | ArmCompact(p: nat)
    | ArmMerge(p: nat, q: nat)
    | ArmSplit(p: nat, q: nat)
    | Relocation(o: nat, q: nat, address: nat)
    | Publish(p: nat, st: PoolState)
    | AllocStep(o: nat, p: nat, address: nat)
    | FreeStep(o: nat)
    | CreateStep(p: nat)
    | DestroyStep(p: nat)

  predicate NoLive(os: seq<ObjCtl>, p: nat) {
    forall o :: 0 <= o < |os| && os[o].live ==> os[o].pool != p
  }

  // When a step can be taken: the checks the code makes under its lock.
  predicate Enabled(s: Sys, a: Step) {
    match a
    case Begin(h, o) => h !in s.held && o < |s.os| && s.os[o].live && s.os[o].pool < |s.ps| && s.ps[s.os[o].pool].state.Running?
    case End(h) => h in s.held && s.held[h].obj < |s.os| && s.os[s.held[h].obj].live && s.os[s.held[h].obj].pool < |s.ps|
                   && s.os[s.held[h].obj].active > 0 && s.ps[s.os[s.held[h].obj].pool].borrows > 0
    case PauseStep(p) => p < |s.ps| && s.ps[p].state.Running?
    case ResumeStep(p) => p < |s.ps| && s.ps[p].state.Paused?
    case ArmCompact(p) => p < |s.ps| && IsSettled(s.ps[p].state)
    case ArmMerge(p, q) => p < |s.ps| && q < |s.ps| && p != q && IsSettled(s.ps[p].state) && IsSettled(s.ps[q].state)
                           && s.ps[p].borrows == 0 && s.ps[q].borrows == 0
    case ArmSplit(p, q) => p < |s.ps| && q < |s.ps| && IsSettled(s.ps[p].state) && s.ps[p].borrows == 0 && s.ps[q].state.Empty?
    case Relocation(o, q, _) => o < |s.os| && s.os[o].live && s.os[o].pool < |s.ps| && InMaintenance(s.ps[s.os[o].pool].state)
                                && q < |s.ps| && InMaintenance(s.ps[q].state)
    case Publish(p, st) => p < |s.ps| && InMaintenance(s.ps[p].state) && (IsSettled(st) || (st.Empty? && NoLive(s.os, p)))
    case AllocStep(o, p, _) => o < |s.os| && !s.os[o].live && p < |s.ps| && s.ps[p].state.Running?
    case FreeStep(o) => o < |s.os| && s.os[o].live && s.os[o].active == 0 && s.os[o].pool < |s.ps| && s.ps[s.os[o].pool].state.Running?
    case CreateStep(p) => p < |s.ps| && s.ps[p].state.Empty?
    case DestroyStep(p) => p < |s.ps| && IsSettled(s.ps[p].state) && s.ps[p].borrows == 0 && NoLive(s.os, p)
  }

  function SetState(ps: seq<PoolCtl>, p: nat, st: PoolState): seq<PoolCtl>
    requires p < |ps|
  {
    ps[p := ps[p].(state := st)]
  }

  function Next(s: Sys, a: Step): Sys
    requires Enabled(s, a)
  {
    match a
    case Begin(h, o) =>
      var p := s.os[o].pool;
      Sys(s.ps[p := s.ps[p].(borrows := s.ps[p].borrows + 1)], s.os[o := s.os[o].(active := s.os[o].active + 1)],
          s.held[h := Held(o, s.os[o].address)])
    case End(h) =>
      var o := s.held[h].obj;
      var p := s.os[o].pool;
      Sys(s.ps[p := s.ps[p].(borrows := s.ps[p].borrows - 1)], s.os[o := s.os[o].(active := s.os[o].active - 1)], s.held - {h})
    case PauseStep(p) => s.(ps := SetState(s.ps, p, Paused))
    case ResumeStep(p) => s.(ps := SetState(s.ps, p, Running))
    // compact pauses first and only then looks at the borrows.
    case ArmCompact(p) => s.(ps := SetState(s.ps, p, if s.ps[p].borrows == 0 then Compacting else Paused))
    case ArmMerge(p, q) => s.(ps := SetState(SetState(s.ps, p, Merging), q, Merging))
    case ArmSplit(p, q) => s.(ps := SetState(SetState(s.ps, p, Splitting), q, Splitting))
    case Relocation(o, q, address) => s.(os := s.os[o := s.os[o].(pool := q, address := address)])
    case Publish(p, st) => s.(ps := SetState(s.ps, p, st))
    case AllocStep(o, p, address) => s.(os := s.os[o := ObjCtl(true, p, 0, address)])
    case FreeStep(o) => s.(os := s.os[o := s.os[o].(live := false, address := 0)])
    case CreateStep(p) => s.(ps := s.ps[p := PoolCtl(Running, 0)])
    case DestroyStep(p) => s.(ps := s.ps[p := PoolCtl(Empty, 0)])
  }

  // ---- totals -----------------------------------------------------------------------------------

  // Borrows of the live objects of pool p among the first n.
  function Total(os: seq<ObjCtl>, p: nat, n: nat): nat
    requires n <= |os|
  {
    if n == 0 then 0
    else Total(os, p, n - 1) + if os[n - 1].live && os[n - 1].pool == p then os[n - 1].active else 0
  }

  function Share(x: ObjCtl, p: nat): nat {
    if x.live && x.pool == p then x.active else 0
  }

  lemma {:induction false} TotalUpdate(os: seq<ObjCtl>, o: nat, x: ObjCtl, p: nat, n: nat)
    requires o < |os| && n <= |os|
    ensures Total(os[o := x], p, n) == if o < n then Total(os, p, n) - Share(os[o], p) + Share(x, p) else Total(os, p, n)
    ensures o < n ==> Share(os[o], p) <= Total(os, p, n)
  {
    if n > 0 {
      TotalUpdate(os, o, x, p, n - 1);
    }
  }

  ghost function Holders(held: map<nat, Held>, o: nat): set<nat> {
    set h | h in held && held[h].obj == o
  }

  lemma HoldersAdd(held: map<nat, Held>, h: nat, v: Held, o: nat)
    requires h !in held
    ensures |Holders(held[h := v], o)| == |Holders(held, o)| + if v.obj == o then 1 else 0
  {
    if v.obj == o {
      assert Holders(held[h := v], o) == Holders(held, o) + {h};
    } else {
      assert Holders(held[h := v], o) == Holders(held, o);
    }
  }

  lemma HoldersDrop(held: map<nat, Held>, h: nat, o: nat)
    requires h in held
    ensures |Holders(held - {h}, o)| == |Holders(held, o)| - if held[h].obj == o then 1 else 0
  {
    if held[h].obj == o {
      assert Holders(held - {h}, o) == Holders(held, o) - {h};
    } else {
      assert Holders(held - {h}, o) == Holders(held, o);
    }
  }

  // ---- the run invariant --------------------------------------------------------------------------

  ghost predicate PoolFine(s: Sys, p: nat)
    requires p < |s.ps|
  {
    && s.ps[p].borrows == Total(s.os, p, |s.os|)
    && (InMaintenance(s.ps[p].state) || s.ps[p].state.Empty? ==> s.ps[p].borrows == 0)
  }

  ghost predicate ObjFine(s: Sys, o: nat)
    requires o < |s.os|
  {
    && s.os[o].active == |Holders(s.held, o)|
    && (s.os[o].live ==> s.os[o].pool < |s.ps| && !s.ps[s.os[o].pool].state.Empty?)
    && (s.os[o].active > 0 ==> s.os[o].live)
  }

  ghost predicate HeldFine(s: Sys, h: nat)
    requires h in s.held
  {
    s.held[h].obj < |s.os| && s.os[s.held[h].obj].live && s.os[s.held[h].obj].address == s.held[h].address
  }

  ghost predicate SysInv(s: Sys) {
    && (forall p :: 0 <= p < |s.ps| ==> PoolFine(s, p))
    && (forall o :: 0 <= o < |s.os| ==> ObjFine(s, o))
    && (forall h :: h in s.held ==> HeldFine(s, h))
  }

  // A held object has a positive count.
  lemma HeldActive(s: Sys, h: nat)
    requires SysInv(s) && h in s.held
    ensures s.held[h].obj < |s.os| && s.os[s.held[h].obj].active > 0
  {
    assert HeldFine(s, h);
    var o := s.held[h].obj;
    assert ObjFine(s, o);
    assert h in Holders(s.held, o);
  }

  // An object of a pool without borrows is not held.
  lemma Unheld(s: Sys, o: nat)
    requires SysInv(s) && o < |s.os| && s.os[o].live && s.os[o].pool < |s.ps| && s.ps[s.os[o].pool].borrows == 0
    ensures s.os[o].active == 0
  {
    assert PoolFine(s, s.os[o].pool);
    TotalUpdate(s.os, o, s.os[o], s.os[o].pool, |s.os|);
  }

  // Only pool states change.
  lemma StatesOnly(s: Sys, t: Sys)
    requires SysInv(s) && t.os == s.os && t.held == s.held && |t.ps| == |s.ps|
    requires forall p :: 0 <= p < |s.ps| ==> t.ps[p].borrows == s.ps[p].borrows
    requires forall p :: 0 <= p < |s.ps| && (InMaintenance(t.ps[p].state) || t.ps[p].state.Empty?) ==> s.ps[p].borrows == 0
    requires forall p :: 0 <= p < |s.ps| && t.ps[p].state.Empty? ==> s.ps[p].state.Empty? || NoLive(s.os, p)
    ensures SysInv(t)
  {
    hide Total, Holders;
    forall p | 0 <= p < |t.ps| ensures PoolFine(t, p) { assert PoolFine(s, p); }
    forall o | 0 <= o < |t.os| ensures ObjFine(t, o) { assert ObjFine(s, o); }
    forall h | h in t.held ensures HeldFine(t, h) { assert HeldFine(s, h); }
  }

  // One object without borrows changes, in pools whose totals it does not touch.
  lemma ObjectOnly(s: Sys, o: nat, x: ObjCtl)
    requires SysInv(s) && o < |s.os| && s.os[o].active == 0 && x.active == 0
    requires x.live ==> x.pool < |s.ps| && !s.ps[x.pool].state.Empty?
    ensures SysInv(s.(os := s.os[o := x]))
  {
    hide Holders, InMaintenance;
    var t := s.(os := s.os[o := x]);
    forall p | 0 <= p < |t.ps| ensures PoolFine(t, p) {
      assert PoolFine(s, p);
      TotalUpdate(s.os, o, x, p, |s.os|);
    }
    forall k | 0 <= k < |t.os| ensures ObjFine(t, k) { assert ObjFine(s, k); }
    forall h | h in t.held ensures HeldFine(t, h) {
      assert HeldFine(s, h);
      HeldActive(s, h);
    }
  }

  lemma BeginKeeps(s: Sys, h: nat, o: nat)
    requires SysInv(s) && Enabled(s, Begin(h, o))
    ensures SysInv(Next(s, Begin(h, o)))
  {
    hide Holders;
    var t := Next(s, Begin(h, o));
    forall p | 0 <= p < |t.ps| ensures PoolFine(t, p) {
      assert PoolFine(s, p);
      TotalUpdate(s.os, o, t.os[o], p, |s.os|);
    }
    forall k | 0 <= k < |t.os| ensures ObjFine(t, k) {
      assert ObjFine(s, k);
      HoldersAdd(s.held, h, Held(o, s.os[o].address), k);
    }
    forall x | x in t.held ensures HeldFine(t, x) {
      if x != h { assert HeldFine(s, x); }
    }
  }

  lemma EndKeeps(s: Sys, h: nat)
    requires SysInv(s) && Enabled(s, End(h))
    ensures SysInv(Next(s, End(h)))
  {
    hide Holders;
    var t := Next(s, End(h));
    var o := s.held[h].obj;
    forall p | 0 <= p < |t.ps| ensures PoolFine(t, p) {
      assert PoolFine(s, p);
      TotalUpdate(s.os, o, t.os[o], p, |s.os|);
    }
    forall k | 0 <= k < |t.os| ensures ObjFine(t, k) {
      assert ObjFine(s, k);
      HoldersDrop(s.held, h, k);
    }
    forall x | x in t.held ensures HeldFine(t, x) {
      assert HeldFine(s, x);
    }
  }

  // Every atomic step keeps the invariant.
  lemma StepKeeps(s: Sys, a: Step)
    requires SysInv(s) && Enabled(s, a)
    ensures SysInv(Next(s, a))
  {
    hide PoolFine, ObjFine, HeldFine;
    match a
    case Begin(h, o) => BeginKeeps(s, h, o);
    case End(h) => EndKeeps(s, h);
    case Relocation(o, q, address) =>
      MaintenanceIdle(s, s.os[o].pool);
      Unheld(s, o);
      ObjectOnly(s, o, s.os[o].(pool := q, address := address));
    case AllocStep(o, p, address) =>
      DeadIdle(s, o);
      ObjectOnly(s, o, ObjCtl(true, p, 0, address));
    case FreeStep(o) => ObjectOnly(s, o, s.os[o].(live := false, address := 0));
    case CreateStep(p) => EmptyIdle(s, p); StatesOnly(s, Next(s, a));
    case Publish(p, st) => MaintenanceIdle(s, p); OthersIdle(s); StatesOnly(s, Next(s, a));
    case _ => OthersIdle(s); StatesOnly(s, Next(s, a));
  }

  lemma MaintenanceIdle(s: Sys, p: nat)
    requires SysInv(s) && p < |s.ps| && InMaintenance(s.ps[p].state)
    ensures s.ps[p].borrows == 0
  {
    assert PoolFine(s, p);
  }

  lemma EmptyIdle(s: Sys, p: nat)
    requires SysInv(s) && p < |s.ps|
    ensures s.ps[p].state.Empty? ==> s.ps[p].borrows == 0
    ensures forall q :: 0 <= q < |s.ps| && (InMaintenance(s.ps[q].state) || s.ps[q].state.Empty?) ==> s.ps[q].borrows == 0
  {
    assert PoolFine(s, p);
    OthersIdle(s);
  }

  lemma OthersIdle(s: Sys)
    requires SysInv(s)
    ensures forall q :: 0 <= q < |s.ps| && (InMaintenance(s.ps[q].state) || s.ps[q].state.Empty?) ==> s.ps[q].borrows == 0
  {
    forall q | 0 <= q < |s.ps| && (InMaintenance(s.ps[q].state) || s.ps[q].state.Empty?) ensures s.ps[q].borrows == 0 {
      assert PoolFine(s, q);
    }
  }

  lemma DeadIdle(s: Sys, o: nat)
    requires SysInv(s) && o < |s.os| && !s.os[o].live
    ensures s.os[o].active == 0
  {
    assert ObjFine(s, o);
  }

  // ---- whole runs -----------------------------------------------------------------------------------

  ghost predicate IsRun(states: seq<Sys>, steps: seq<Step>) {
    && |states| == |steps| + 1
    && (forall i :: 0 <= i < |steps| ==> Enabled(states[i], steps[i]) && states[i + 1] == Next(states[i], steps[i]))
  }

  lemma {:induction false} RunKeeps(states: seq<Sys>, steps: seq<Step>, n: nat)
    requires IsRun(states, steps) && n < |states| && SysInv(states[0])
    ensures SysInv(states[n])
  {
    if n > 0 {
      RunKeeps(states, steps, n - 1);
      StepKeeps(states[n - 1], steps[n - 1]);
    }
  }

  // In every state of every run: a pool's count is the sum over its objects, and a pool under
  // maintenance has none.
  lemma CountsAgree(states: seq<Sys>, steps: seq<Step>, n: nat, p: nat)
    requires IsRun(states, steps) && n < |states| && SysInv(states[0]) && p < |states[n].ps|
    ensures states[n].ps[p].borrows == Total(states[n].os, p, |states[n].os|)
    ensures InMaintenance(states[n].ps[p].state) ==> states[n].ps[p].borrows == 0
  {
    RunKeeps(states, steps, n);
    assert PoolFine(states[n], p);
  }

  // While a holder keeps a borrow, its object stays live at the address it was given, however
  // the other steps interleave.
  lemma {:induction false} BorrowPinsAddress(states: seq<Sys>, steps: seq<Step>, i: nat, j: nat, h: nat)
    requires IsRun(states, steps) && i <= j < |states| && SysInv(states[0])
    requires h in states[i].held && forall k :: i <= k < j ==> steps[k] != End(h)
    ensures h in states[j].held && states[j].held[h] == states[i].held[h]
    ensures var o := states[i].held[h].obj;
            o < |states[j].os| && states[j].os[o].live && states[j].os[o].address == states[i].held[h].address
  {
    RunKeeps(states, steps, j);
    if i < j {
      BorrowPinsAddress(states, steps, i, j - 1, h);
      assert Enabled(states[j - 1], steps[j - 1]) && states[j] == Next(states[j - 1], steps[j - 1]);
    }
    assert HeldFine(states[j], h);
  }

  // A holder can always end its own borrow: the counters it decrements are positive.
  lemma EndEnabled(states: seq<Sys>, steps: seq<Step>, n: nat, h: nat)
    requires IsRun(states, steps) && n < |states| && SysInv(states[0]) && h in states[n].held
    ensures Enabled(states[n], End(h))
  {
    var s := states[n];
    RunKeeps(states, steps, n);
    HeldActive(s, h);
    var o := s.held[h].obj;
    assert HeldFine(s, h) && ObjFine(s, o) && PoolFine(s, s.os[o].pool);
    TotalUpdate(s.os, o, s.os[o], s.os[o].pool, |s.os|);
  }

  // ---- composing runs --------------------------------------------------------------------------------

  lemma NoSteps(s: Sys)
    ensures IsRun([s], [])
  {
  }

  lemma OneStep(s: Sys, a: Step)
    requires Enabled(s, a)
    ensures IsRun([s, Next(s, a)], [a])
  {
  }

  lemma JoinRuns(first: seq<Sys>, steps: seq<Step>, second: seq<Sys>, more: seq<Step>)
    requires IsRun(first, steps) && IsRun(second, more) && first[|steps|] == second[0]
    ensures IsRun(first + second[1..], steps + more)
    ensures (first + second[1..])[0] == first[0] && (first + second[1..])[|steps + more|] == second[|more|]
  {
    hide Enabled, Next;
    var all, run := first + second[1..], steps + more;
    forall i | 0 <= i < |run| ensures Enabled(all[i], run[i]) && all[i + 1] == Next(all[i], run[i]) {
      if i >= |steps| {
        var k := i - |steps|;
        assert all[i] == second[k] && all[i + 1] == second[k + 1] && run[i] == more[k];
      } else {
        assert all[i] == first[i] && all[i + 1] == first[i + 1] && run[i] == steps[i];
      }
    }
  }

  predicate Relocates(steps: seq<Step>) {
    forall i :: 0 <= i < |steps| ==> steps[i].Relocation?
  }

  // Objects of pools under maintenance may be somewhere else, in such a pool; all others stay.
  predicate Relocatable(s: Sys, os: seq<ObjCtl>) {
    && |os| == |s.os|
    && (forall o :: 0 <= o < |os| && os[o] != s.os[o] ==>
         && s.os[o].live && s.os[o].pool < |s.ps| && InMaintenance(s.ps[s.os[o].pool].state)
         && os[o] == s.os[o].(pool := os[o].pool, address := os[o].address)
         && os[o].pool < |s.ps| && InMaintenance(s.ps[os[o].pool].state))
  }

  // The first n objects are at their new places.
  function Partly(s: Sys, os: seq<ObjCtl>, n: nat): Sys
    requires n <= |os| == |s.os|
  {
    s.(os := os[..n] + s.os[n..])
  }

  // One relocation per object that is somewhere else leads there.
  lemma {:induction false} RelocationsReach(s: Sys, os: seq<ObjCtl>, n: nat) returns (states: seq<Sys>, steps: seq<Step>)
    requires Relocatable(s, os) && n <= |os|
    ensures IsRun(states, steps) && states[0] == s && states[|steps|] == Partly(s, os, n) && Relocates(steps)
  {
    if n == 0 {
      NoSteps(s);
      assert Partly(s, os, 0) == s;
      return [s], [];
    }
    states, steps := RelocationsReach(s, os, n - 1);
    var was, moved := Partly(s, os, n - 1), Partly(s, os, n);
    assert moved.os == was.os[n - 1 := os[n - 1]];
    if os[n - 1] == s.os[n - 1] {
      assert moved == was;
    } else {
      var a := Relocation(n - 1, os[n - 1].pool, os[n - 1].address);
      OneStep(was, a);
      assert Next(was, a) == moved;
      JoinRuns(states, steps, [was, moved], [a]);
      states, steps := states + [was, moved][1..], steps + [a];
    }
  }
}
