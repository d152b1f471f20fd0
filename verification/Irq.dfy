/** One interrupt line of the MINIX kernel, shared by several handlers.  Each
    registered hook has an id, a bit; `active` are the ids of the handlers that
    have not yet dealt with the interrupt. */
module Irq {

  /** How many ids there are: the bits of an int. */
  const NR_IDS: nat := 32

  datatype Hook = Hook(name: nat, id: nat)

  datatype Line = Line(hooks: seq<Hook>, active: set<nat>, masked: bool)

  predicate HasId(hooks: seq<Hook>, id: nat) {
    exists i :: 0 <= i < |hooks| && hooks[i].id == id
  }

  function Ids(hooks: seq<Hook>): (ids: set<nat>)
    ensures forall id :: id in ids <==> HasId(hooks, id)
  {
    if hooks == [] then {}
    else
      var n := |hooks| - 1;
      assert forall id :: HasId(hooks, id) <==> HasId(hooks[..n], id) || hooks[n].id == id;
      Ids(hooks[..n]) + {hooks[n].id}
  }

  ghost predicate Distinct(hooks: seq<Hook>) {
    forall i, j :: 0 <= i < j < |hooks| ==> hooks[i].id != hooks[j].id && hooks[i].name != hooks[j].name
  }

  /** Ids and names are distinct, only registered handlers are active, and the
      line is open exactly if it has a handler and none is active. */
  ghost predicate Inv(l: Line) {
    && Distinct(l.hooks) && (forall h :: h in l.hooks ==> h.id < NR_IDS)
    && (forall id :: id in l.active ==> HasId(l.hooks, id))
    && (!l.masked <==> l.hooks != [] && l.active == {})
  }

  // ------------------------------------------------------------- put_irq_handler

  /** The lowest id from `id` on that is not in use, or NR_IDS. */
  function FreeId(used: set<nat>, id: nat): (r: nat)
    requires id <= NR_IDS
    ensures id <= r <= NR_IDS && (r < NR_IDS ==> r !in used) && forall k :: id <= k < r ==> k in used
    decreases NR_IDS - id
  {
    if id == NR_IDS || id !in used then id else FreeId(used, id + 1)
  }

  predicate Named(hooks: seq<Hook>, name: nat) {
    exists i :: 0 <= i < |hooks| && hooks[i].name == name
  }

  /** A hook that is there already is left alone; with no id left the kernel
      panics. */
  function Put(l: Line, name: nat): Line
    requires Named(l.hooks, name) || FreeId(Ids(l.hooks), 0) < NR_IDS
  {
    if Named(l.hooks, name) then l
    else
      var id := FreeId(Ids(l.hooks), 0);
      var active := l.active - {id};
      Line(l.hooks + [Hook(name, id)], active, l.masked && active != {})
  }

  // -------------------------------------------------------------- rm_irq_handler

  function Without(hooks: seq<Hook>, id: nat): (r: seq<Hook>)
    ensures forall h :: h in r <==> h in hooks && h.id != id
  {
    if hooks == [] then []
    else
      var h := hooks[|hooks| - 1];
      Without(hooks[..|hooks| - 1], id) + if h.id == id then [] else [h]
  }

  /** Every hook with the id goes, and the id is no longer active. */
  function Remove(l: Line, id: nat): Line {
    var hooks, active := Without(l.hooks, id), if HasId(l.hooks, id) then l.active - {id} else l.active;
    Line(hooks, active, if hooks == [] then true else l.masked && active != {})
  }

  // ------------------------------------------------------------------ irq_handle

  /** Each handler is active while it runs, and after it if it answers no. */
  function Handled(hooks: seq<Hook>, active: set<nat>, answer: nat -> bool): set<nat> {
    if hooks == [] then active
    else
      var before := Handled(hooks[..|hooks| - 1], active, answer);
      var h := hooks[|hooks| - 1];
      if answer(h.name) then before - {h.id} else before + {h.id}
  }

  function Handle(l: Line, answer: nat -> bool): Line {
    if l.hooks == [] then l.(masked := true)
    else
      var active := Handled(l.hooks, l.active, answer);
      Line(l.hooks, active, active != {})
  }

  function Enable(l: Line, id: nat): Line {
    var active := l.active - {id};
    l.(active := active, masked := l.masked && active != {})
  }

  function Disable(l: Line, id: nat): Line {
    if id in l.active then l else l.(active := l.active + {id}, masked := true)
  }

  // ------------------------------------------------------------------ invariant

  lemma PutKeeps(l: Line, name: nat)
    requires Inv(l) && (Named(l.hooks, name) || FreeId(Ids(l.hooks), 0) < NR_IDS)
    ensures Inv(Put(l, name))
  {
    hide Ids;
    if !Named(l.hooks, name) {
      var h := Hook(name, FreeId(Ids(l.hooks), 0));
      var more := l.hooks + [h];
      forall i | 0 <= i < |l.hooks| ensures more[i].id != h.id && more[i].name != h.name {
        assert HasId(l.hooks, l.hooks[i].id);
      }
      forall id | HasId(l.hooks, id) ensures HasId(more, id) {
        var i :| 0 <= i < |l.hooks| && l.hooks[i].id == id;
        assert more[i].id == id;
      }
    }
  }

  /** The lowest id that no hook has. */
  ghost predicate LowestFreeId(hooks: seq<Hook>, id: nat) {
    !HasId(hooks, id) && forall k :: 0 <= k < id ==> HasId(hooks, k)
  }

  /** A hook that is not there is added at the end, with the lowest id that is
      free, and is not active; all else stays.  One that is there stays. */
  lemma PutAdds(l: Line, name: nat)
    requires Inv(l) && (Named(l.hooks, name) || FreeId(Ids(l.hooks), 0) < NR_IDS)
    ensures Named(l.hooks, name) ==> Put(l, name) == l
    ensures !Named(l.hooks, name) ==>
      exists id: nat ::
        && LowestFreeId(l.hooks, id) && id < NR_IDS && Put(l, name).hooks == l.hooks + [Hook(name, id)]
        && id !in Put(l, name).active && (forall k: nat :: k != id ==> (k in Put(l, name).active <==> k in l.active))
  {
    hide Ids, FreeId;
    if !Named(l.hooks, name) {
      var id := FreeId(Ids(l.hooks), 0);
      assert LowestFreeId(l.hooks, id);
      assert Put(l, name).hooks == l.hooks + [Hook(name, id)];
    }
  }

  /** A line is full exactly if every id is taken. */
  lemma FullExactly(hooks: seq<Hook>)
    ensures FreeId(Ids(hooks), 0) < NR_IDS <==> exists id: nat :: id < NR_IDS && !HasId(hooks, id)
  {
    hide Ids;
  }

  lemma WithoutHas(hooks: seq<Hook>, id: nat, k: nat)
    ensures HasId(Without(hooks, id), k) <==> k != id && HasId(hooks, k)
  {
    var r := Without(hooks, id);
    if HasId(r, k) {
      var i :| 0 <= i < |r| && r[i].id == k;
      assert r[i] in hooks;
    }
    if k != id && HasId(hooks, k) {
      var i :| 0 <= i < |hooks| && hooks[i].id == k;
      assert hooks[i] in r;
    }
  }

  lemma {:induction false} WithoutDistinct(hooks: seq<Hook>, id: nat)
    requires Distinct(hooks)
    ensures Distinct(Without(hooks, id))
  {
    if hooks != [] {
      var n := |hooks| - 1;
      var r := Without(hooks[..n], id);
      WithoutDistinct(hooks[..n], id);
      forall i | 0 <= i < |r| ensures r[i].id != hooks[n].id && r[i].name != hooks[n].name {
        assert r[i] in hooks[..n];
      }
    }
  }

  /** rm_irq_handler keeps the invariant whatever hook it is given. */
  lemma RemoveKeeps(l: Line, id: nat)
    requires Inv(l)
    ensures Inv(Remove(l, id))
  {
    var r := Without(l.hooks, id);
    WithoutDistinct(l.hooks, id);
    WithoutHas(l.hooks, id, id);
    hide Without, Distinct;
    forall k | k in Remove(l, id).active ensures HasId(r, k) { WithoutHas(l.hooks, id, k); }
  }

  /** It takes away the hook it is given and no other, if and only if that hook
      is registered or its id is not in use. */
  lemma RemoveExact(l: Line, h: Hook)
    requires Inv(l)
    ensures (forall g :: g in Remove(l, h.id).hooks <==> g in l.hooks && g != h) <==>
      h in l.hooks || !HasId(l.hooks, h.id)
  {
    hide Ids;
    if h in l.hooks {
      assert forall g :: g in l.hooks && g.id == h.id ==> g == h;
    } else if HasId(l.hooks, h.id) {
      var i :| 0 <= i < |l.hooks| && l.hooks[i].id == h.id;
      assert l.hooks[i] in l.hooks && l.hooks[i] != h;
    }
  }

  /** The other hooks stay in their order, and only that id is no longer active. */
  lemma RemoveOrder(l: Line, id: nat)
    requires Inv(l)
    ensures !HasId(l.hooks, id) ==> Remove(l, id).hooks == l.hooks
    ensures forall i :: 0 <= i < |l.hooks| && l.hooks[i].id == id ==>
      Remove(l, id).hooks == l.hooks[..i] + l.hooks[i + 1..]
    ensures forall k: nat :: k in Remove(l, id).active <==> k in l.active && k != id
  {
    hide Without;
    forall i | 0 <= i < |l.hooks| && l.hooks[i].id == id
      ensures Without(l.hooks, id) == l.hooks[..i] + l.hooks[i + 1..]
    {
      WithoutOne(l.hooks, id, i);
    }
    if !HasId(l.hooks, id) { WithoutNone(l.hooks, id); }
  }

  lemma WithoutLast(hooks: seq<Hook>, id: nat)
    requires hooks != []
    ensures
      var n := |hooks| - 1;
      Without(hooks, id) == Without(hooks[..n], id) + if hooks[n].id == id then [] else [hooks[n]]
  {
  }

  lemma {:induction false} WithoutNone(hooks: seq<Hook>, id: nat)
    requires forall i :: 0 <= i < |hooks| ==> hooks[i].id != id
    ensures Without(hooks, id) == hooks
  {
    if hooks != [] {
      hide Without;
      var n := |hooks| - 1;
      WithoutLast(hooks, id);
      WithoutNone(hooks[..n], id);
      assert hooks[..n] + [hooks[n]] == hooks;
    }
  }

  lemma {:induction false} WithoutOne(hooks: seq<Hook>, id: nat, i: nat)
    requires i < |hooks| && hooks[i].id == id && forall k :: 0 <= k < |hooks| && k != i ==> hooks[k].id != id
    ensures Without(hooks, id) == hooks[..i] + hooks[i + 1..]
  {
    hide Without;
    var n := |hooks| - 1;
    var init := hooks[..n];
    WithoutLast(hooks, id);
    if i == n {
      WithoutNone(init, id);
    } else {
      WithoutOne(init, id, i);
      Rejoin(hooks, i);
    }
  }

  lemma Rejoin(hooks: seq<Hook>, i: nat)
    requires i + 1 < |hooks|
    ensures var n := |hooks| - 1; hooks[..n][..i] + hooks[..n][i + 1..] + [hooks[n]] == hooks[..i] + hooks[i + 1..]
  {
  }

  /** After the handlers ran, those are active that answered no. */
  lemma {:induction false} HandledAnswers(hooks: seq<Hook>, active: set<nat>, answer: nat -> bool, id: nat)
    requires Distinct(hooks)
    ensures !HasId(hooks, id) ==> (id in Handled(hooks, active, answer) <==> id in active)
    ensures forall h :: h in hooks && h.id == id ==> (id in Handled(hooks, active, answer) <==> !answer(h.name))
  {
    if hooks != [] {
      var n := |hooks| - 1;
      var init, last := hooks[..n], hooks[n];
      HandledAnswers(init, active, answer, id);
      assert forall h :: h in hooks <==> h in init || h == last;
      assert HasId(init, id) ==> HasId(hooks, id);
      assert last.id == id ==> HasId(hooks, id);
      assert forall h :: h in init ==> h.id != last.id;
    }
  }

  lemma HandleKeeps(l: Line, answer: nat -> bool)
    requires Inv(l)
    ensures Inv(Handle(l, answer)) && Handle(l, answer).hooks == l.hooks
    ensures forall h :: h in l.hooks ==> (h.id in Handle(l, answer).active <==> !answer(h.name))
  {
    hide Distinct;
    forall id | id in Handled(l.hooks, l.active, answer) ensures l.hooks != [] ==> HasId(l.hooks, id) {
      HandledAnswers(l.hooks, l.active, answer, id);
    }
    forall h | h in l.hooks ensures h.id in Handled(l.hooks, l.active, answer) <==> !answer(h.name) {
      HandledAnswers(l.hooks, l.active, answer, h.id);
    }
  }

  lemma EnableKeeps(l: Line, id: nat)
    requires Inv(l) && HasId(l.hooks, id)
    ensures Inv(Enable(l, id)) && Inv(Disable(l, id))
  {
    hide Distinct;
  }

  /** Just that handler is no longer active, or active, and the line is opened or
      closed as Inv demands. */
  lemma EnableExactly(l: Line, id: nat)
    requires Inv(l) && HasId(l.hooks, id)
    ensures var e := Enable(l, id); e.hooks == l.hooks && forall k: nat :: k in e.active <==> k in l.active && k != id
    ensures var d := Disable(l, id); d.hooks == l.hooks && forall k: nat :: k in d.active <==> k in l.active || k == id
    ensures Disable(l, id).masked && (Enable(l, id).masked <==> Enable(l, id).active != {})
  {
    hide Distinct;
    EnableKeeps(l, id);
  }

  /** enable_irq undoes a disable_irq that took effect. */
  lemma EnableUndoes(l: Line, id: nat)
    requires Inv(l) && HasId(l.hooks, id) && id !in l.active
    ensures Enable(Disable(l, id), id) == l
  {
    assert l.active + {id} - {id} == l.active;
  }

  // -------------------------------------------------------------------- runs

  datatype Event = Add(name: nat) | Drop(hook: Hook) | Interrupt(answer: nat -> bool) | On(hook: Hook) | Off(hook: Hook)

  /** Hooks are enabled and disabled only while registered, and there are never
      more than there are ids. */
  predicate Allowed(l: Line, ev: Event) {
    match ev
    case Add(name) => Named(l.hooks, name) || FreeId(Ids(l.hooks), 0) < NR_IDS
    case Drop(_) => true
    case Interrupt(_) => true
    case On(h) => h in l.hooks
    case Off(h) => h in l.hooks
  }

  function Step(l: Line, ev: Event): Line
    requires Allowed(l, ev)
  {
    match ev
    case Add(name) => Put(l, name)
    case Drop(h) => Remove(l, h.id)
    case Interrupt(answer) => Handle(l, answer)
    case On(h) => Enable(l, h.id)
    case Off(h) => Disable(l, h.id)
  }

  predicate IsRun(l: Line, evs: seq<Event>)
    decreases |evs|
  {
    evs == [] || (Allowed(l, evs[0]) && IsRun(Step(l, evs[0]), evs[1..]))
  }

  function Run(l: Line, evs: seq<Event>): Line
    requires IsRun(l, evs)
    decreases |evs|
  {
    if evs == [] then l else Run(Step(l, evs[0]), evs[1..])
  }

  lemma Registered(hooks: seq<Hook>, h: Hook)
    requires h in hooks
    ensures HasId(hooks, h.id)
  {
    var i :| 0 <= i < |hooks| && hooks[i] == h;
  }

  lemma StepKeeps(l: Line, ev: Event)
    requires Inv(l) && Allowed(l, ev)
    ensures Inv(Step(l, ev))
  {
    hide Inv, Put, Remove, Handle, Enable, Disable;
    match ev
    case Add(name) => PutKeeps(l, name);
    case Drop(h) => RemoveKeeps(l, h.id);
    case Interrupt(answer) => HandleKeeps(l, answer);
    case On(h) => Registered(l.hooks, h); EnableKeeps(l, h.id);
    case Off(h) => Registered(l.hooks, h); EnableKeeps(l, h.id);
  }

  /** Over every run. */
  lemma {:induction false} RunKeeps(l: Line, evs: seq<Event>)
    requires Inv(l) && IsRun(l, evs)
    ensures Inv(Run(l, evs))
    decreases |evs|
  {
    hide Inv, Step;
    if evs != [] {
      StepKeeps(l, evs[0]);
      RunKeeps(Step(l, evs[0]), evs[1..]);
    }
  }

  /** A line without handlers. */
  const EMPTY: Line := Line([], {}, true)

  /** Whatever happened since the line had no handlers, it is open exactly if it
      has a handler and none is active, and nobody is active who is not
      registered. */
  lemma AlwaysRight(evs: seq<Event>)
    requires IsRun(EMPTY, evs)
    ensures
      var l := Run(EMPTY, evs);
      && (!l.masked <==> l.hooks != [] && l.active == {})
      && (forall id :: id in l.active ==> exists h :: h in l.hooks && h.id == id)
  {
    RunKeeps(EMPTY, evs);
    var l := Run(EMPTY, evs);
    forall id | id in l.active ensures exists h :: h in l.hooks && h.id == id {
      var i :| 0 <= i < |l.hooks| && l.hooks[i].id == id;
      assert l.hooks[i] in l.hooks;
    }
  }

  /** Whether a hook is registered at the end of a run: it was added, as the
      first of its name, with the lowest free id, and no hook with this id was
      removed since. */
  ghost predicate AddedSince(l: Line, evs: seq<Event>, h: Hook, was: bool)
    requires IsRun(l, evs)
    decreases |evs|
  {
    if evs == [] then was
    else
      var now := match evs[0]
        case Add(name) => was || (name == h.name && !Named(l.hooks, name) && LowestFreeId(l.hooks, h.id))
        case Drop(g) => was && g.id != h.id
        case _ => was;
      AddedSince(Step(l, evs[0]), evs[1..], h, now)
  }

  lemma HookStep(l: Line, ev: Event, h: Hook)
    requires Inv(l) && Allowed(l, ev)
    ensures h in Step(l, ev).hooks <==>
      match ev
      case Add(name) => h in l.hooks || (name == h.name && !Named(l.hooks, name) && LowestFreeId(l.hooks, h.id))
      case Drop(g) => h in l.hooks && g.id != h.id
      case _ => h in l.hooks
  {
    hide Ids, FreeId, Put, Without;
    match ev
    case Add(name) =>
      PutAdds(l, name);
      if !Named(l.hooks, name) {
        var id: nat :| LowestFreeId(l.hooks, id) && Put(l, name).hooks == l.hooks + [Hook(name, id)];
        assert LowestFreeId(l.hooks, h.id) ==> h.id == id;
      }
    case Drop(g) =>
    case Interrupt(answer) =>
    case On(g) =>
    case Off(g) =>
  }

  /** Over every run, exactly the hooks that were added and not removed since. */
  lemma {:induction false} RegisteredExactly(l: Line, evs: seq<Event>, h: Hook)
    requires Inv(l) && IsRun(l, evs)
    ensures h in Run(l, evs).hooks <==> AddedSince(l, evs, h, h in l.hooks)
    decreases |evs|
  {
    hide Inv, Step, Allowed, LowestFreeId;
    if evs != [] {
      HookStep(l, evs[0], h);
      StepKeeps(l, evs[0]);
      RegisteredExactly(Step(l, evs[0]), evs[1..], h);
    }
  }

  const AGAIN: seq<Event> := [Add(1), Drop(Hook(1, 0)), Add(2)]

  /** Hook 1 is registered and removed, and hook 2 registered, with the id that
      has become free.  Removing hook 1 once more removes hook 2. */
  lemma RemovesAnother()
    ensures IsRun(EMPTY, AGAIN) && Run(EMPTY, AGAIN).hooks == [Hook(2, 0)]
    ensures Remove(Run(EMPTY, AGAIN), Hook(1, 0).id).hooks == []
  {
    hide Run, IsRun;
    var one, two := Line([Hook(1, 0)], {}, false), Line([Hook(2, 0)], {}, false);
    FirstHook(1);
    FirstHook(2);
    OnlyHook(1);
    OnlyHook(2);
    assert AGAIN[1..] == [Drop(Hook(1, 0)), Add(2)] && AGAIN[1..][1..] == [Add(2)] && [Add(2)][1..] == [];
    Nothing(two);
    OneEvent(EMPTY, [Add(2)]);
    OneEvent(one, AGAIN[1..]);
    OneEvent(EMPTY, AGAIN);
  }

  lemma FirstHook(name: nat)
    ensures Allowed(EMPTY, Add(name)) && Step(EMPTY, Add(name)) == Line([Hook(name, 0)], {}, false)
  {
    assert Ids(EMPTY.hooks) == {} && FreeId({}, 0) == 0;
    assert EMPTY.hooks + [Hook(name, 0)] == [Hook(name, 0)];
  }

  lemma OnlyHook(name: nat)
    ensures Remove(Line([Hook(name, 0)], {}, false), 0) == EMPTY
  {
    var hooks := [Hook(name, 0)];
    assert hooks[0].id == 0 && hooks[..0] == [];
    assert Without([], 0) == [];
  }

  lemma OneEvent(l: Line, evs: seq<Event>)
    requires evs != [] && Allowed(l, evs[0])
    ensures IsRun(l, evs) == IsRun(Step(l, evs[0]), evs[1..])
    ensures IsRun(l, evs) ==> Run(l, evs) == Run(Step(l, evs[0]), evs[1..])
  {
  }

  lemma Nothing(l: Line)
    ensures IsRun(l, []) && Run(l, []) == l
  {
  }

  // --------------------------------------------------------------- in place

  class IrqLine {
    var hooks: seq<Hook>
    var active: set<nat>
    var masked: bool

    constructor ()
      ensures View() == EMPTY && Inv(View())
    {
      hooks, active, masked := [], {}, true;
    }

    function View(): Line
      reads this
    {
      Line(hooks, active, masked)
    }

    static method LowestFree(used: set<nat>) returns (id: nat)
      ensures id == FreeId(used, 0)
    {
      id := 0;
      while id < NR_IDS && id in used
        invariant id <= NR_IDS && FreeId(used, id) == FreeId(used, 0)
      {
        id := id + 1;
      }
    }

    /** put_irq_handler; false stands for the kernel's panic. */
    method PutHandler(name: nat) returns (ok: bool)
      modifies this
      ensures ok <==> old(Named(hooks, name) || FreeId(Ids(hooks), 0) < NR_IDS)
      ensures View() == if ok then Put(old(View()), name) else old(View())
      ensures ok && old(!Named(hooks, name)) ==>
        && |hooks| == |old(hooks)| + 1 && hooks[..|old(hooks)|] == old(hooks)
        && hooks[|old(hooks)|].name == name && LowestFreeId(old(hooks), hooks[|old(hooks)|].id)
      ensures old(Inv(View())) ==> Inv(View())
    {
      hide Inv, Ids, Named, FreeId;
      if Inv(View()) && (Named(hooks, name) || FreeId(Ids(hooks), 0) < NR_IDS) { PutKeeps(View(), name); }
      var used, i := {}, 0;
      NamedStep(hooks, 0, name);
      while i < |hooks|
        invariant i <= |hooks| && !Named(hooks[..i], name) && used == Ids(hooks[..i]) && View() == old(View())
      {
        NamedStep(hooks, i, name);
        if hooks[i].name == name {
          return true;
        }
        used := used + {hooks[i].id};
        i := i + 1;
      }
      assert hooks[..i] == hooks;
      var id := LowestFree(used);
      if id == NR_IDS {
        return false;
      }
      hooks := hooks + [Hook(name, id)];
      active := active - {id};
      if active == {} {
        masked := false;
      }
      return true;
    }

    /** rm_irq_handler */
    method RemoveHandler(id: nat)
      modifies this
      ensures View() == Remove(old(View()), id)
      ensures old(Inv(View())) ==> Inv(View())
    {
      hide HasId, Without, Inv;
      if Inv(View()) { RemoveKeeps(View(), id); }
      var i, rest := 0, [];
      HasStep(hooks, 0, id);
      WithoutStep(hooks, 0, id);
      while i < |hooks|
        invariant i <= |hooks| && rest == Without(hooks[..i], id) && hooks == old(hooks) && masked == old(masked)
        invariant active == if HasId(hooks[..i], id) then old(active) - {id} else old(active)
      {
        HasStep(hooks, i, id);
        WithoutStep(hooks, i, id);
        if hooks[i].id == id {
          active := active - {id};
        } else {
          rest := rest + [hooks[i]];
        }
        i := i + 1;
      }
      assert hooks[..i] == hooks;
      hooks := rest;
      if hooks == [] {
        masked := true;
      } else if active == {} {
        masked := false;
      }
    }

    /** irq_handle; `answer` is what each handler returns. */
    method HandleIrq(answer: nat -> bool)
      modifies this
      ensures View() == Handle(old(View()), answer)
      ensures old(Inv(View())) ==> Inv(View())
    {
      hide Inv;
      if Inv(View()) { HandleKeeps(View(), answer); }
      masked := true;
      if hooks == [] {
        return;
      }
      var i := 0;
      while i < |hooks|
        invariant i <= |hooks| && hooks == old(hooks) && masked && active == Handled(hooks[..i], old(active), answer)
      {
        assert hooks[..i + 1][..i] == hooks[..i] && hooks[..i + 1][i] == hooks[i];
        active := active + {hooks[i].id};
        if answer(hooks[i].name) {
          active := active - {hooks[i].id};
        }
        i := i + 1;
      }
      assert hooks[..i] == hooks;
      if active == {} {
        masked := false;
      }
    }

    method EnableIrq(id: nat)
      modifies this
      ensures View() == Enable(old(View()), id)
      ensures old(Inv(View()) && HasId(hooks, id)) ==> Inv(View())
    {
      if Inv(View()) && HasId(hooks, id) { EnableKeeps(View(), id); }
      active := active - {id};
      if active == {} {
        masked := false;
      }
    }

    /** Whether the handler was not disabled already. */
    method DisableIrq(id: nat) returns (was: bool)
      modifies this
      ensures View() == Disable(old(View()), id) && was == (id !in old(active))
      ensures old(Inv(View()) && HasId(hooks, id)) ==> Inv(View())
    {
      if Inv(View()) && HasId(hooks, id) { EnableKeeps(View(), id); }
      if id in active {
        return false;
      }
      active := active + {id};
      masked := true;
      return true;
    }
  }

  lemma NamedStep(hooks: seq<Hook>, i: nat, name: nat)
    requires i <= |hooks|
    ensures !Named(hooks[..0], name) && Ids(hooks[..0]) == {}
    ensures i < |hooks| ==> (Named(hooks[..i + 1], name) <==> Named(hooks[..i], name) || hooks[i].name == name)
    ensures i < |hooks| ==> Ids(hooks[..i + 1]) == Ids(hooks[..i]) + {hooks[i].id}
    ensures i < |hooks| && hooks[i].name == name ==> Named(hooks, name)
  {
    if i < |hooks| {
      var init, more := hooks[..i], hooks[..i + 1];
      assert more[..i] == init && more[i] == hooks[i] && forall k :: 0 <= k < i ==> more[k] == init[k];
    }
  }

  lemma HasStep(hooks: seq<Hook>, i: nat, id: nat)
    requires i <= |hooks|
    ensures !HasId(hooks[..0], id)
    ensures i < |hooks| ==> (HasId(hooks[..i + 1], id) <==> HasId(hooks[..i], id) || hooks[i].id == id)
  {
    if i < |hooks| {
      var init, more := hooks[..i], hooks[..i + 1];
      assert more[i] == hooks[i] && forall k :: 0 <= k < i ==> more[k] == init[k];
    }
  }

  lemma WithoutStep(hooks: seq<Hook>, i: nat, id: nat)
    requires i <= |hooks|
    ensures Without(hooks[..0], id) == []
    ensures i < |hooks| ==>
      Without(hooks[..i + 1], id) == Without(hooks[..i], id) + if hooks[i].id == id then [] else [hooks[i]]
  {
    if i < |hooks| {
      var more := hooks[..i + 1];
      assert more[..|more| - 1] == hooks[..i] && more[|more| - 1] == hooks[i];
    }
  }
}
