/**
 Register shuffle at the head of a side trace: the registers that hold values on exit from the
 parent trace are moved to the registers the side trace expects them in. Code is generated
 backwards, so the move emitted last is executed first.
 */
module Shuffle {

  type Reg = int
  type Ref = int

  const RID_ESP := 4
  const RID_MAX_GPR := 16
  const RID_MAX_FPR := 32

  predicate Gpr(r: Reg) { 0 <= r < RID_MAX_GPR && r != RID_ESP }
  predicate Fpr(r: Reg) { RID_MAX_GPR <= r < RID_MAX_FPR }
  predicate SameClass(r: Reg, q: Reg) { (Gpr(r) && Gpr(q)) || (Fpr(r) && Fpr(q)) }
  /** Membership in RSET_GPR or RSET_FPR. */
  predicate InClass(r: Reg, gpr: bool) { if gpr then Gpr(r) else Fpr(r) }

  // ---------------------------------------------------------------- machine code

  datatype Move = Move(dst: Reg, src: Reg)
  type Regs = map<Reg, int>

  ghost predicate Full(regs: Regs) { forall r {:trigger r in regs} :: Gpr(r) || Fpr(r) ==> r in regs }

  /** Run moves in machine order. */
  ghost function Exec(code: seq<Move>, regs: Regs): Regs
  {
    if code == [] then regs
    else Exec(code[1..], if code[0].src in regs then regs[code[0].dst := regs[code[0].src]] else regs)
  }

  // ---------------------------------------------------------------- picking registers

  lemma {:induction false} Inhabited(s: set<Reg>)
    ensures s == {} || exists x :: x in s
  {
    if !(exists x :: x in s) { assert s == {}; }
  }

  lemma {:induction false} LowestExists(s: set<Reg>)
    requires s != {}
    ensures exists r :: r in s && forall x :: x in s ==> r <= x
    decreases s
  {
    Inhabited(s);
    var y :| y in s;
    var rest := s - {y};
    if rest == {} {
      assert s == {y};
    } else {
      LowestExists(rest);
      var r :| r in rest && forall x :: x in rest ==> r <= x;
      var m := if y < r then y else r;
      assert m in s && forall x :: x in s ==> m <= x by {
        forall x | x in s ensures m <= x { if x != y { assert x in rest; } }
      }
    }
  }

  /** rset_pickbot: the lowest register of a set. */
  function PickBot(s: set<Reg>): (r: Reg)
    requires s != {}
    ensures r in s && forall x :: x in s ==> r <= x
  {
    LowestExists(s);
    var r :| r in s && forall x :: x in s ==> r <= x;
    r
  }

  // ---------------------------------------------------------------- the parallel move

  /** Parent register to target register, as wanted on entry. */
  type Plan = map<Reg, Reg>

  ghost predicate PlanOk(plan: Plan) {
    && (forall r {:trigger r in plan} :: r in plan ==> SameClass(r, plan[r]))
    && (forall r, q {:trigger r in plan, q in plan} :: r in plan && q in plan && r != q ==> plan[r] != plan[q])
  }

  /** regs holds what the plan asks for, given what the parent registers held in start. */
  ghost predicate Moved(plan: Plan, start: Regs, regs: Regs) {
    forall r {:trigger r in plan} :: r in plan ==> r in start && plan[r] in regs && regs[plan[r]] == start[r]
  }

  ghost predicate Kept(keep: set<Reg>, start: Regs, regs: Regs) {
    forall r {:trigger r in keep} :: r in keep && r in start ==> r in regs && regs[r] == start[r]
  }

  /** A closed set of parent registers in one class: every one is the target of another, so none can go first. */
  ghost predicate Cycle(plan: Plan, c: set<Reg>, gpr: bool) {
    && c != {} && c <= plan.Keys && (forall r {:trigger r in c} :: r in c ==> InClass(r, gpr))
    && (forall r {:trigger Fed(plan, c, r)} :: r in c ==> Fed(plan, c, r))
  }

  ghost predicate Fed(plan: Plan, c: set<Reg>, r: Reg) {
    exists q {:trigger q in c} :: q in c && q in plan && plan[q] == r
  }

  ghost predicate HasCycle(plan: Plan, gpr: bool) { exists c :: Cycle(plan, c, gpr) }

  /** Registers that can serve as a temporary for one class. */
  function Temps(freeset: set<Reg>, live: set<Reg>, allow: set<Reg>, gpr: bool): set<Reg> {
    set r | r in (freeset - live) * allow && InClass(r, gpr)
  }

  ghost predicate Stuck(plan: Plan, temps: set<Reg>, gpr: bool) { temps == {} && HasCycle(plan, gpr) }

  /** A register that is free at the start, is no register to be moved from, and may be overwritten. */
  ghost predicate HasTemp(plan: Plan, free: set<Reg>, allow: set<Reg>, gpr: bool) {
    exists r :: r in free && r !in plan && r in allow && InClass(r, gpr)
  }

  lemma {:induction false} StuckMeans(plan: Plan, free: set<Reg>, allow: set<Reg>, gpr: bool)
    ensures Stuck(plan, Temps(free, plan.Keys, allow, gpr), gpr) <==>
      HasCycle(plan, gpr) && !HasTemp(plan, free, allow, gpr)
  {
    hide HasCycle, InClass;
    var temps := Temps(free, plan.Keys, allow, gpr);
    Inhabited(temps);
    forall r ensures r in temps <==> r in free && r !in plan && r in allow && InClass(r, gpr) {}
  }

  /**
   The code is a parallel move: whatever the registers hold on entry, every target ends up with what
   its parent register held, and registers that are neither targets nor allowed as temporaries keep
   their values.
   */
  ghost predicate ParallelMove(plan: Plan, allow: set<Reg>, code: seq<Move>) {
    forall start: Regs, keep: set<Reg> {:trigger MovesFrom(plan, allow, code, start, keep)} ::
        MovesFrom(plan, allow, code, start, keep)
  }

  ghost predicate MovesFrom(plan: Plan, allow: set<Reg>, code: seq<Move>, start: Regs, keep: set<Reg>) {
    Full(start) && keep !! Image(plan, plan.Keys) && keep !! allow ==>
      Moved(plan, start, Exec(code, start)) && Kept(keep, start, Exec(code, start))
  }

  // ---------------------------------------------------------------- finite sets

  ghost function Image(plan: Plan, s: set<Reg>): set<Reg> {
    set r | r in s && r in plan :: plan[r]
  }

  lemma {:induction false} ImageSize(plan: Plan, s: set<Reg>)
    ensures |Image(plan, s)| <= |s|
    decreases s
  {
    if s != {} {
      Inhabited(s);
      var y :| y in s;
      var rest := s - {y};
      ImageSize(plan, rest);
      if y in plan {
        assert Image(plan, s) == Image(plan, rest) + {plan[y]};
      } else {
        assert Image(plan, s) == Image(plan, rest);
      }
    }
  }

  lemma {:induction false} SubsetSize(a: set<Reg>, b: set<Reg>)
    requires a <= b
    ensures |a| <= |b|
    ensures |a| == |b| ==> a == b
  {
    assert b == a + (b - a);
  }

  /** A finite set inside its own image is its image. */
  lemma {:induction false} ClosedImage(plan: Plan, s: set<Reg>)
    requires s <= Image(plan, s)
    ensures s == Image(plan, s)
  {
    ImageSize(plan, s);
    SubsetSize(s, Image(plan, s));
  }

  // ---------------------------------------------------------------- what the loop maintains

  /** The sets of the shuffle; cur says where the value of each live parent register goes next. */
  datatype View = View(freeset: set<Reg>, live: set<Reg>, allow: set<Reg>, cur: Plan, code: seq<Move>)

  /** The move asked for, and what was free and allowed on entry. */
  datatype Goal = Goal(plan: Plan, free0: set<Reg>, allow0: set<Reg>)

  /** Targets are allocated and distinct; a live register that is not free is itself a target. */
  ghost predicate Tables(v: View, g: Goal) {
    && v.cur.Keys == v.live && v.live <= g.plan.Keys && PlanOk(g.plan) && PlanOk(v.cur)
    && (forall r {:trigger r in v.live} :: r in v.live ==> v.cur[r] !in v.freeset)
    && (forall r {:trigger r in Image(v.cur, v.live)} :: r in v.live && r !in v.freeset ==> r in Image(v.cur, v.live))
  }

  /** How far the work has come: finished registers are out of the way, renamed targets are temporaries. */
  ghost predicate Progress(v: View, g: Goal)
    requires v.cur.Keys == v.live <= g.plan.Keys
  {
    && (forall r {:trigger r in g.plan} :: r in g.plan && r !in v.live ==> r in v.freeset && r !in v.allow)
    && (forall r {:trigger r in v.live} :: r in v.live ==>
          v.cur[r] == g.plan[r] || (v.cur[r] in v.allow && v.cur[r] in g.free0 && v.cur[r] !in g.plan))
    && v.allow <= g.allow0 && g.allow0 - g.plan.Keys <= v.allow
    && (forall r {:trigger r in g.plan} :: r in g.plan ==> g.plan[r] !in g.allow0)
    && (forall r {:trigger r in v.freeset} :: r in v.freeset && r in v.allow && r !in v.live ==>
        r in g.free0 && r !in g.plan)
    && (forall r {:trigger r in g.free0} :: r in g.free0 && r in g.allow0 && r !in g.plan ==>
        r in v.freeset || r in Image(v.cur, v.live))
  }

  /** The values of live registers are in place, those of finished ones still where the parent left them. */
  ghost predicate Pending(v: View, g: Goal, start: Regs, regs: Regs, keep: set<Reg>) {
    && Full(start) && Full(regs) && keep !! Image(g.plan, g.plan.Keys) && keep !! g.allow0
    && (forall r {:trigger r in v.live} :: r in v.live && r in v.cur ==>
        v.cur[r] in regs && r in start && regs[v.cur[r]] == start[r])
    && (forall r {:trigger r in g.plan} :: r in g.plan && r !in v.live ==>
        r in regs && r in start && regs[r] == start[r])
    && Kept(keep, start, regs)
  }

  /** From any registers in that state the emitted code finishes the job and disturbs nothing else. */
  ghost predicate Finishes(v: View, g: Goal) {
    forall start: Regs, regs: Regs, keep: set<Reg> {:trigger Pending(v, g, start, regs, keep)} ::
        Pending(v, g, start, regs, keep) ==>
      Moved(g.plan, start, Exec(v.code, regs)) && Kept(keep, start, Exec(v.code, regs))
  }

  /** A cycle that no temporary can break stays as it is. */
  ghost predicate Waits(v: View, g: Goal, c: set<Reg>) {
    c <= v.live && forall r {:trigger r in c} :: r in c ==>
        r in v.cur && r in g.plan && r !in v.freeset && v.cur[r] == g.plan[r]
  }

  ghost predicate AllWait(v: View, g: Goal) {
    forall c, gpr {:trigger Cycle(g.plan, c, gpr)} ::
      Cycle(g.plan, c, gpr) && Temps(g.free0, g.plan.Keys, g.allow0, gpr) == {} ==> Waits(v, g, c)
  }

  ghost predicate Inv(v: View, g: Goal) {
    Tables(v, g) && Progress(v, g) && Finishes(v, g) && AllWait(v, g)
  }

  // ---------------------------------------------------------------- coalescing

  ghost function Coalesced(v: View, rp: Reg): View
    requires rp in v.cur
  {
    View(v.freeset + {v.cur[rp]}, v.live - {rp}, v.allow - {rp}, v.cur - {rp}, [Move(v.cur[rp], rp)] + v.code)
  }

  lemma {:induction false} CoalesceTables(v: View, g: Goal, rp: Reg)
    requires Tables(v, g) && Progress(v, g) && rp in v.live && rp in v.freeset
    ensures Tables(Coalesced(v, rp), g) && Progress(Coalesced(v, rp), g)
  {
    var v' := Coalesced(v, rp);
    var t := v.cur[rp];
    forall r | r in Image(v.cur, v.live) && r != t ensures r in Image(v'.cur, v'.live) {
      var q :| q in v.live && v.cur[q] == r;
      assert q in v'.live && v'.cur[q] == r;
    }
  }

  lemma {:induction false} CoalesceFinishes(v: View, g: Goal, rp: Reg)
    requires Tables(v, g) && Progress(v, g) && Finishes(v, g) && rp in v.live && rp in v.freeset
    ensures Finishes(Coalesced(v, rp), g)
  {
    var v' := Coalesced(v, rp);
    var t := v.cur[rp];
    forall start: Regs, regs: Regs, keep: set<Reg> {:trigger Pending(v', g, start, regs, keep)} | Pending(v', g, start,
        regs, keep)
      ensures Moved(g.plan, start, Exec(v'.code, regs)) && Kept(keep, start, Exec(v'.code, regs)) {
      CoalescePending(v, g, rp, start, regs, keep);
      ExecFirst(Move(t, rp), v.code, regs);
    }
  }

  lemma {:induction false} ExecFirst(m: Move, code: seq<Move>, regs: Regs)
    requires m.src in regs
    ensures Exec([m] + code, regs) == Exec(code, regs[m.dst := regs[m.src]])
  {
    assert ([m] + code)[1..] == code;
  }

  lemma {:induction false} CoalescePending(v: View, g: Goal, rp: Reg, start: Regs, regs: Regs, keep: set<Reg>)
    requires Tables(v, g) && Progress(v, g) && rp in v.live && rp in v.freeset
    requires Pending(Coalesced(v, rp), g, start, regs, keep)
    ensures rp in regs && Pending(v, g, start, regs[v.cur[rp] := regs[rp]], keep)
  {
    var v' := Coalesced(v, rp);
    var t := v.cur[rp];
    assert rp in g.plan && rp !in v'.live;
    TargetsApart(v, g, rp, keep);
    forall r {:trigger r in v.live} | r in v.live ensures v.cur[r] in regs[t := regs[rp]] && r in start
        && regs[t := regs[rp]][v.cur[r]] == start[r] {
      if r != rp { assert r in v'.live && r in v'.cur; }
    }
  }

  /** A current target is no register that is kept. */
  lemma {:induction false} TargetsApart(v: View, g: Goal, rp: Reg, keep: set<Reg>)
    requires Tables(v, g) && Progress(v, g) && rp in v.live && keep !! Image(g.plan, g.plan.Keys) && keep !! g.allow0
    ensures v.cur[rp] !in keep
  {
    if v.cur[rp] == g.plan[rp] { assert g.plan[rp] in Image(g.plan, g.plan.Keys); }
  }

  lemma {:induction false} CoalesceWaits(v: View, g: Goal, rp: Reg)
    requires Tables(v, g) && AllWait(v, g) && rp in v.live && rp in v.freeset
    ensures AllWait(Coalesced(v, rp), g)
  {
    forall c, gpr {:trigger Cycle(g.plan, c, gpr)} | Cycle(g.plan, c, gpr)
        && Temps(g.free0, g.plan.Keys, g.allow0, gpr) == {}
      ensures Waits(Coalesced(v, rp), g, c) {
      assert Waits(v, g, c);
      CoalesceWait(v, g, rp, c, gpr);
    }
  }

  lemma {:induction false} CoalesceWait(v: View, g: Goal, rp: Reg, c: set<Reg>, gpr: bool)
    requires v.cur.Keys == v.live && PlanOk(v.cur) && Waits(v, g, c) && Cycle(g.plan, c, gpr) && rp in v.live
    requires rp in v.freeset
    ensures Waits(Coalesced(v, rp), g, c)
  {
    assert rp !in c;
    forall r {:trigger r in c} | r in c ensures r != v.cur[rp] {
      assert Fed(g.plan, c, r);
      var q :| q in c && q in g.plan && g.plan[q] == r;
      assert v.cur[q] == r && q != rp;
    }
  }

  // ---------------------------------------------------------------- renaming

  ghost function Renamed(v: View, rp: Reg, up: Reg): View
    requires rp in v.cur
  {
    View(v.freeset + {v.cur[rp]} - {up}, v.live, v.allow, v.cur[rp := up], [Move(v.cur[rp], up)] + v.code)
  }

  ghost predicate CanRename(v: View, rp: Reg, up: Reg, gpr: bool)
    requires v.cur.Keys == v.live
  {
    rp in v.live && v.cur[rp] in v.live && InClass(v.cur[rp], gpr) && up in Temps(v.freeset, v.live, v.allow, gpr)
  }

  lemma {:induction false} RenameTables(v: View, g: Goal, rp: Reg, up: Reg, gpr: bool)
    requires Tables(v, g) && Progress(v, g) && CanRename(v, rp, up, gpr)
    ensures Tables(Renamed(v, rp, up), g) && Progress(Renamed(v, rp, up), g)
  {
    var v' := Renamed(v, rp, up);
    assert up in Image(v'.cur, v'.live) by { assert v'.cur[rp] == up; }
    forall r | r in Image(v.cur, v.live) && r != v.cur[rp] ensures r in Image(v'.cur, v'.live) {
      var q :| q in v.live && v.cur[q] == r;
      assert q in v'.live && v'.cur[q] == r;
    }
  }

  lemma {:induction false} TargetsDistinct(v: View, g: Goal, rp: Reg, up: Reg)
    requires Tables(v, g) && rp in v.live && up in v.freeset
    ensures forall r {:trigger r in v.live} :: r in v.live && r != rp ==> v.cur[r] != v.cur[rp] && v.cur[r] != up
  {
    forall r {:trigger r in v.live} | r in v.live && r != rp ensures v.cur[r] != v.cur[rp]
        && v.cur[r] != up { assert r in v.cur && rp in v.cur; }
  }

  lemma {:induction false} RenameFinishes(v: View, g: Goal, rp: Reg, up: Reg, gpr: bool)
    requires Tables(v, g) && Progress(v, g) && Finishes(v, g) && CanRename(v, rp, up, gpr)
    ensures Finishes(Renamed(v, rp, up), g)
  {
    var v' := Renamed(v, rp, up);
    forall start: Regs, regs: Regs, keep: set<Reg> {:trigger Pending(v', g, start, regs, keep)} | Pending(v', g, start,
        regs, keep)
      ensures Moved(g.plan, start, Exec(v'.code, regs)) && Kept(keep, start, Exec(v'.code, regs)) {
      RenamePending(v, g, rp, up, gpr, start, regs, keep);
      ExecFirst(Move(v.cur[rp], up), v.code, regs);
    }
  }

  lemma {:induction false} RenamePending(v: View, g: Goal, rp: Reg, up: Reg, gpr: bool, start: Regs, regs: Regs,
      keep: set<Reg>)
    requires Tables(v, g) && Progress(v, g) && CanRename(v, rp, up, gpr)
    requires Pending(Renamed(v, rp, up), g, start, regs, keep)
    ensures up in regs && Pending(v, g, start, regs[v.cur[rp] := regs[up]], keep)
  {
    var v' := Renamed(v, rp, up);
    assert rp in v'.live && v'.cur[rp] == up;
    TargetsApart(v, g, rp, keep);
    forall r {:trigger r in v.live} | r in v.live
      ensures v.cur[r] in regs[v.cur[rp] := regs[up]] && r in start
      ensures regs[v.cur[rp] := regs[up]][v.cur[r]] == start[r] {
      if r != rp { assert r in v'.live && v'.cur[r] == v.cur[r]; }
    }
  }

  lemma {:induction false} RenameWaits(v: View, g: Goal, rp: Reg, up: Reg, gpr: bool)
    requires Tables(v, g) && Progress(v, g) && AllWait(v, g) && CanRename(v, rp, up, gpr)
    ensures AllWait(Renamed(v, rp, up), g)
  {
    assert up in Temps(g.free0, g.plan.Keys, g.allow0, gpr);
    forall c, gpr' {:trigger Cycle(g.plan, c, gpr')} | Cycle(g.plan, c, gpr')
        && Temps(g.free0, g.plan.Keys, g.allow0, gpr') == {}
      ensures Waits(Renamed(v, rp, up), g, c) {
      assert Waits(v, g, c);
      assert gpr != gpr';
      assert SameClass(rp, v.cur[rp]);
    }
  }

  // ---------------------------------------------------------------- being stuck

  /** Where nothing can be coalesced, what is left are cycles of the original plan. */
  lemma {:induction false} LeftIsCycle(v: View, g: Goal, gpr: bool)
    requires Tables(v, g) && Progress(v, g) && v.freeset !! v.live && (exists r :: r in v.live && InClass(r, gpr))
    ensures HasCycle(g.plan, gpr)
  {
    var r0 :| r0 in v.live && InClass(r0, gpr);
    var c := set r | r in v.live && InClass(r, gpr);
    assert r0 in c;
    forall r {:trigger Fed(g.plan, c, r)} | r in c ensures Fed(g.plan, c, r) {
      var q := FedBy(v, g, r);
      assert SameClass(q, r) && q in c;
    }
    assert Cycle(g.plan, c, gpr);
  }

  lemma {:induction false} FedBy(v: View, g: Goal, r: Reg) returns (q: Reg)
    requires Tables(v, g) && Progress(v, g) && v.freeset !! v.live && r in v.live
    ensures q in v.live && q in v.cur && v.cur[q] == r == g.plan[q]
  {
    LeftAsPlanned(v, g);
    assert r !in v.freeset;
    assert r in Image(v.cur, v.live);
    hide Tables, Progress;
    q :| q in v.live && q in v.cur && v.cur[q] == r;
  }

  lemma {:induction false} LeftAsPlanned(v: View, g: Goal)
    requires Tables(v, g) && Progress(v, g) && v.freeset !! v.live
    ensures forall r :: r in v.live ==> v.cur[r] == g.plan[r]
  {
    LeftIsImage(v, g);
  }

  lemma {:induction false} LeftIsImage(v: View, g: Goal)
    requires Tables(v, g) && Progress(v, g) && v.freeset !! v.live
    ensures v.live == Image(v.cur, v.live) && forall r :: r in v.live ==> v.cur[r] == g.plan[r]
  {
    forall r | r in v.live ensures r in Image(v.cur, v.live) { assert r !in v.freeset; }
    ClosedImage(v.cur, v.live);
    forall r | r in v.live ensures v.cur[r] == g.plan[r] { assert v.cur[r] in Image(v.cur, v.live); }
  }

  /** At such a point a class has the temporaries it had on entry. */
  lemma {:induction false} TempsBack(v: View, g: Goal, gpr: bool)
    requires Tables(v, g) && Progress(v, g) && v.freeset !! v.live
    ensures Temps(v.freeset, v.live, v.allow, gpr) == Temps(g.free0, g.plan.Keys, g.allow0, gpr)
  {
    LeftIsImage(v, g);
  }

  /** As long as a cycle lacks a temporary, something is left to do. */
  lemma {:induction false} StuckStays(v: View, g: Goal, gpr: bool)
    requires AllWait(v, g) && Stuck(g.plan, Temps(g.free0, g.plan.Keys, g.allow0, gpr), gpr)
    ensures v.live != {}
  {
    var c :| Cycle(g.plan, c, gpr);
    assert Waits(v, g, c);
  }

  lemma {:induction false} CurrentTarget(v: View, g: Goal, down: Reg) returns (rp: Reg)
    requires Tables(v, g) && down in v.live && down !in v.freeset
    ensures rp in v.live && v.cur[rp] == down
  {
    assert down in Image(v.cur, v.live);
    rp :| rp in v.live && v.cur[rp] == down;
  }

  /** Parent registers to the registers of the instructions they feed. */
  ghost function PlanOf(live: set<Reg>, sloadins: map<Reg, Ref>, reg: map<Ref, Reg>): Plan {
    map r | r in live && r in sloadins && sloadins[r] in reg :: reg[sloadins[r]]
  }

  lemma {:induction false} PlanOfRenamed(live: set<Reg>, sloadins: map<Reg, Ref>, reg: map<Ref, Reg>, rp: Reg, up: Reg)
    requires PlanOf(live, sloadins, reg).Keys == live && rp in live
    requires forall r, q {:trigger r in live, q in live} :: r in live && q in live && r != q ==>
        sloadins[r] != sloadins[q]
    ensures sloadins[rp] in reg
    ensures PlanOf(live, sloadins, reg[sloadins[rp] := up]) == PlanOf(live, sloadins, reg)[rp := up]
  {
    var p, p' := PlanOf(live, sloadins, reg), PlanOf(live, sloadins, reg[sloadins[rp] := up]);
    assert rp in p;
    forall r | r in live ensures r in p && r in p' && p'[r] == p[rp := up][r] {
      assert r in p;
    }
    assert p'.Keys == p[rp := up].Keys;
  }

  /** The invariant holds when the shuffle starts. */
  lemma {:induction false} StartInv(v: View, g: Goal)
    requires v.cur == g.plan && v.cur.Keys == v.live && v.freeset == g.free0 && v.allow == g.allow0 && v.code == []
    requires PlanOk(g.plan)
    requires forall r {:trigger r in v.live} :: r in v.live ==> v.cur[r] !in v.freeset && v.cur[r] !in v.allow
    requires forall r {:trigger r in Image(v.cur, v.live)} :: r in v.live && r !in v.freeset ==>
        r in Image(v.cur, v.live)
    ensures Inv(v, g)
  {
    assert Finishes(v, g) by {
      forall start: Regs, regs: Regs, keep: set<Reg> {:trigger Pending(v, g, start, regs, keep)} | Pending(v, g, start,
          regs, keep)
        ensures Moved(g.plan, start, Exec(v.code, regs)) && Kept(keep, start, Exec(v.code, regs)) {
        assert forall r {:trigger r in g.plan} :: r in g.plan ==> r in v.live;
      }
    }
    forall c, gpr {:trigger Cycle(g.plan, c, gpr)} | Cycle(g.plan, c, gpr)
        ensures Waits(v, g, c) { StartWaits(v, g, c, gpr); }
  }

  lemma {:induction false} StartWaits(v: View, g: Goal, c: set<Reg>, gpr: bool)
    requires v.cur == g.plan && v.cur.Keys == v.live && Cycle(g.plan, c, gpr)
    requires forall r {:trigger r in v.live} :: r in v.live ==> v.cur[r] !in v.freeset
    ensures Waits(v, g, c)
  {
    forall r {:trigger r in c} | r in c ensures r in v.live && r !in v.freeset {
      assert Fed(g.plan, c, r);
      var q :| q in c && q in g.plan && g.plan[q] == r;
      assert q in v.live;
    }
  }

  lemma {:induction false} Smaller(s: set<Reg>, x: Reg)
    requires x in s
    ensures |s - {x}| == |s| - 1
  {
    assert s == (s - {x}) + {x};
  }

  lemma {:induction false} AllMoved(v: View, g: Goal)
    requires v.live == {} && Finishes(v, g) && PlanOk(g.plan)
    ensures ParallelMove(g.plan, g.allow0, v.code)
  {
    forall start: Regs, keep: set<Reg>
        ensures MovesFrom(g.plan, g.allow0, v.code, start, keep) { AllMovedFrom(v, g, start, keep); }
  }

  lemma {:induction false} AllMovedFrom(v: View, g: Goal, start: Regs, keep: set<Reg>)
    requires v.live == {} && Finishes(v, g) && PlanOk(g.plan)
    ensures MovesFrom(g.plan, g.allow0, v.code, start, keep)
  {
    if Full(start) && keep !! Image(g.plan, g.plan.Keys)
        && keep !! g.allow0 { assert Pending(v, g, start, start, keep); }
  }

  lemma {:induction false} AnyClass(v: View, g: Goal)
    requires Tables(v, g)
    ensures forall r {:trigger r in v.live} :: r in v.live ==> Gpr(r) || Fpr(r)
  {
    forall r {:trigger r in v.live} | r in v.live ensures Gpr(r) || Fpr(r) { assert r in v.cur; }
  }

  /** No temporary left where nothing can be coalesced: the class was stuck from the start. */
  lemma {:induction false} GivesUp(v: View, g: Goal, r: Reg, gpr: bool)
    requires Tables(v, g) && Progress(v, g) && v.freeset * v.live == {} && r in v.live && InClass(r, gpr)
    requires Temps(v.freeset, v.live, v.allow, gpr) == {}
    ensures Stuck(g.plan, Temps(g.free0, g.plan.Keys, g.allow0, gpr), gpr)
  {
    hide Tables, Progress, Temps;
    assert v.freeset !! v.live by { forall x | x in v.freeset ensures x !in v.live { assert x in v.live ==>
        x in v.freeset * v.live; } }
    LeftIsCycle(v, g, gpr);
    TempsBack(v, g, gpr);
  }

  /** A rename among general registers leaves the floating-point temporaries alone, and frees down. */
  lemma {:induction false} OtherTemps(freeset: set<Reg>, live: set<Reg>, allow: set<Reg>, down: Reg, up: Reg)
    requires Gpr(down) && up in Temps(freeset, live, allow, true)
    ensures Temps(freeset + {down} - {up}, live, allow, false) == Temps(freeset, live, allow, false)
    ensures up !in live
  {
  }

  lemma {:induction false} NotFree(freeset: set<Reg>, live: set<Reg>, r: Reg)
    requires freeset * live == {} && r in live
    ensures r !in freeset
  {
    assert r in freeset ==> r in freeset * live;
  }

  lemma {:induction false} NotLive(freeset: set<Reg>, live: set<Reg>, allow: set<Reg>, up: Reg, gpr: bool)
    requires up in Temps(freeset, live, allow, gpr)
    ensures up !in live
  {
  }

  // ---------------------------------------------------------------- the allocator state

  class Shuffler {
    var freeset: set<Reg>
    var live: set<Reg>
    var allow: set<Reg>
    /** Instruction that a parent register feeds. */
    var sloadins: map<Reg, Ref>
    /** Register allocated to an instruction (ir->r). */
    var reg: map<Ref, Reg>
    /** Instruction a register is allocated to (regcost_ref). */
    var cost: map<Reg, Ref>
    /** Emitted moves in machine order. */
    var code: seq<Move>
    ghost const goal: Goal

    /** Where the value of a live parent register goes next. */
    ghost function Cur(): (p: Plan)
      reads this
    {
      PlanOf(live, sloadins, reg)
    }

    ghost function Abs(): View
      reads this
    {
      View(freeset, live, allow, Cur(), code)
    }

    /** The tables name each other: live registers feed distinct instructions, which own their registers. */
    ghost predicate Linked()
      reads this
    {
      && Cur().Keys == live
      && (forall r {:trigger r in live} :: r in live ==> Cur()[r] in cost && cost[Cur()[r]] == sloadins[r])
      && (forall r, q {:trigger r in live, q in live} :: r in live && q in live && r != q ==>
          sloadins[r] != sloadins[q])
    }

    ghost predicate Valid()
      reads this
    {
      Linked() && Inv(Abs(), goal)
    }

    /**
     The state the shuffle starts from: parent registers that feed instructions are live, the
     instructions' registers are allocated, distinct and not allowed as temporaries.
     */
    constructor (freeset: set<Reg>, live: set<Reg>, allow: set<Reg>, sloadins: map<Reg, Ref>, reg: map<Ref, Reg>,
        cost: map<Reg, Ref>)
      requires forall r {:trigger r in live} :: r in live ==>
        && r in sloadins && sloadins[r] in reg && SameClass(r, reg[sloadins[r]])
        && reg[sloadins[r]] !in freeset && reg[sloadins[r]] !in allow
        && reg[sloadins[r]] in cost && cost[reg[sloadins[r]]] == sloadins[r]
      requires forall r, q {:trigger r in live, q in live} :: r in live && q in live && r != q ==>
          sloadins[r] != sloadins[q]
      requires forall r {:trigger r in live} :: r in live && r !in freeset ==>
          exists q {:trigger q in live} :: q in live && reg[sloadins[q]] == r
      ensures Valid() && goal == Goal(PlanOf(live, sloadins, reg), freeset, allow) && code == []
    {
      this.freeset, this.live, this.allow := freeset, live, allow;
      this.sloadins, this.reg, this.cost := sloadins, reg, cost;
      code := [];
      goal := Goal(PlanOf(live, sloadins, reg), freeset, allow);
      ghost var plan := PlanOf(live, sloadins, reg);
      assert plan.Keys == live by { forall r | r in live ensures r in plan {} }
      forall r {:trigger r in Image(plan, live)} | r in live && r !in freeset ensures r in Image(plan, live) {
        var q :| q in live && reg[sloadins[q]] == r;
        assert plan[q] == r;
      }
      StartInv(View(freeset, live, allow, plan, []), Goal(plan, freeset, allow));
    }

    /** Move the value of a free live register to its target, which becomes free. */
    method Coalesce(rp: Reg)
      requires Valid() && rp in live && rp in freeset
      modifies this`freeset, this`live, this`allow, this`code
      ensures Valid() && live == old(live) - {rp}
    {
      ghost var v := Abs();
      hide Tables, Progress, Finishes, AllWait;
      CoalesceTables(v, goal, rp);
      CoalesceFinishes(v, goal, rp);
      CoalesceWaits(v, goal, rp);
      var target := reg[sloadins[rp]];
      live := live - {rp};
      allow := allow - {rp};
      freeset := freeset + {target};
      code := [Move(target, rp)] + code;
      assert Cur() == v.cur - {rp};
    }

    /** ra_rename: the instruction that owns down moves to up, and a move from up to down follows. */
    method Rename(down: Reg, up: Reg, ghost gpr: bool)
      requires Valid() && down in live && down !in freeset && InClass(down, gpr)
      requires up in Temps(freeset, live, allow, gpr)
      modifies this`freeset, this`reg, this`cost, this`code
      ensures Valid() && freeset == old(freeset) + {down} - {up}
    {
      ghost var v := Abs();
      hide Tables, Progress, Finishes, AllWait, Image;
      ghost var rp := CurrentTarget(v, goal, down);
      TargetsDistinct(v, goal, rp, up);
      RenameTables(v, goal, rp, up, gpr);
      RenameFinishes(v, goal, rp, up, gpr);
      RenameWaits(v, goal, rp, up, gpr);
      var ref := cost[down];
      cost := cost[up := ref];
      reg := reg[ref := up];
      cost := cost - {down};
      freeset := freeset + {down};
      freeset := freeset - {up};
      code := [Move(down, up)] + code;
      PlanOfRenamed(live, sloadins, old(reg), rp, up);
      assert Abs() == Renamed(v, rp, up);
    }

    /**
     The shuffle: coalesces what it can, breaks cycles through a temporary, and gives up exactly if
     some class has a cycle and no register that can serve as a temporary.
     */
    method Run() returns (ok: bool)
      requires Valid()
      modifies this`freeset, this`live, this`allow, this`reg, this`cost, this`code
      ensures ok <==> forall gpr: bool :: !Stuck(goal.plan, Temps(goal.free0, goal.plan.Keys, goal.allow0, gpr), gpr)
      ensures ok <==> forall gpr: bool :: HasCycle(goal.plan, gpr) ==> HasTemp(goal.plan, goal.free0, goal.allow0, gpr)
      ensures ok ==> live == {} && ParallelMove(goal.plan, goal.allow0, code)
    {
      hide Inv, Linked, Temps, Stuck, ParallelMove, HasCycle, HasTemp;
      forall gpr: bool
        ensures Stuck(goal.plan, Temps(goal.free0, goal.plan.Keys, goal.allow0, gpr), gpr) <==>
          HasCycle(goal.plan, gpr) && !HasTemp(goal.plan, goal.free0, goal.allow0, gpr) {
        StuckMeans(goal.plan, goal.free0, goal.allow0, gpr);
      }
      while true
        invariant Valid()
        decreases 2 * |live| + (if freeset * live == {} then 1 else 0)
      {
        CoalesceAll();
        if live == {} {
          NotStuck();
          return true;
        }
        ok := BreakCycles();
        if !ok { return; }
      }
    }

    lemma {:induction false} NotStuck()
      requires Valid() && live == {}
      ensures forall gpr: bool :: !Stuck(goal.plan, Temps(goal.free0, goal.plan.Keys, goal.allow0, gpr), gpr)
      ensures ParallelMove(goal.plan, goal.allow0, code)
    {
      assert PlanOk(goal.plan);
      hide Tables, Progress, Finishes, AllWait, Temps, Stuck, ParallelMove;
      forall gpr: bool ensures !Stuck(goal.plan, Temps(goal.free0, goal.plan.Keys, goal.allow0, gpr), gpr) {
        if Stuck(goal.plan, Temps(goal.free0, goal.plan.Keys, goal.allow0, gpr), gpr) { StuckStays(Abs(), goal, gpr); }
      }
      AllMoved(Abs(), goal);
    }

    /** Repeatedly coalesce free live registers. */
    method CoalesceAll()
      requires Valid()
      modifies this`freeset, this`live, this`allow, this`code
      ensures Valid() && freeset * live == {} && |live| <= |old(live)|
      ensures (old(freeset * live) != {} ==> |live| < |old(live)|)
    {
      hide Inv, Linked;
      while freeset * live != {}
        invariant Valid() && |live| <= |old(live)| && (|live| == |old(live)| ==> freeset * live == old(freeset * live))
        decreases |live|
      {
        Smaller(live, PickBot(freeset * live));
        Coalesce(PickBot(freeset * live));
      }
    }

    /** Break cycles by renaming one target of each class to a temporary. */
    method BreakCycles() returns (ok: bool)
      requires Valid() && freeset * live == {} && live != {}
      modifies this`freeset, this`reg, this`cost, this`code
      ensures ok ==> Valid() && freeset * live != {}
      ensures !ok ==> exists gpr: bool :: Stuck(goal.plan, Temps(goal.free0, goal.plan.Keys, goal.allow0, gpr), gpr)
    {
      hide Tables, Progress, Finishes, AllWait, Temps, Stuck, Linked;
      ghost var v := Abs();
      AnyClass(v, goal);
      var gprs := set r | r in live && Gpr(r);
      var fprs := set r | r in live && Fpr(r);
      Inhabited(live);
      if fprs != {} { NotFree(freeset, live, PickBot(fprs)); }
      if gprs != {} {
        var temps := Temps(freeset, live, allow, true);
        if temps == {} {
          GivesUp(v, goal, PickBot(gprs), true);
          return false;
        }
        NotFree(freeset, live, PickBot(gprs));
        OtherTemps(freeset, live, allow, PickBot(gprs), PickBot(temps));
        Rename(PickBot(gprs), PickBot(temps), true);
        assert PickBot(gprs) in freeset * live;
      }
      if fprs != {} {
        var temps := Temps(freeset, live, allow, false);
        if temps == {} {
          GivesUp(v, goal, PickBot(fprs), false);
          return false;
        }
        NotLive(freeset, live, allow, PickBot(temps), false);
        Rename(PickBot(fprs), PickBot(temps), false);
        assert PickBot(fprs) in freeset * live;
      }
      return true;
    }
  }
}
