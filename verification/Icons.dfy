/**
 The pinned icon store over the binding registry.  An install pins its icon, stores it, commits its binding and lets the
 pin go; deleting an icon reads the pins and the bindings under the custody lock that a new pin needs too.  The steps
 are fine enough for installs to commit and store between any two parts of a deletion, and for the process to crash.
 */
module Icons {
  import opened Basics

  /** An icon's namespace and key, which name its file. */
  datatype Icon = Icon(published: bool, key: string)

  /** A binding's Team and Assistant. */
  datatype Owner = Owner(team: string, assistant: string)

  /** A live pin, and whether its icon was stored under it. */
  datatype Handle = Handle(icon: Icon, stored: bool)

  /** Who holds the custody lock, and how far it is. */
  datatype Custody =
    | Free
    | Discarding(icon: Icon)
    | Unlinking(icon: Icon)
    | Retiring(owner: Owner, icon: Icon)
    | RetireUnlinking(owner: Owner, icon: Icon)
    | RetireDeleting(owner: Owner)

  /** `orphaned`: the owners whose own retire unlinked their icon and whose binding is still there. */
  datatype State = State(
    pins: map<Icon, nat>, files: map<Icon, string>, handles: map<nat, Handle>, custody: Custody,
    bindings: map<Owner, Icon>, orphaned: set<Owner>)

  datatype Step =
    | Pin(id: nat, icon: Icon)
    | Put(id: nat, contents: string)
    | Commit(id: nat, owner: Owner)
    | Unbind(owner: Owner)
    | Unpin(id: nat)
    | Discard(icon: Icon)
    | DiscardRead
    | DiscardUnlink(removed: bool)
    | Retire(owner: Owner, icon: Icon)
    | RetireRead
    | RetireUnlink(removed: bool)
    | RetireDelete(deleted: bool)
    | Crash

  // ----- Pin counts ------------------------------------------------------------------------------------------------

  /** The live handles on an icon. */
  ghost function Holders(handles: map<nat, Handle>, icon: Icon): set<nat> {
    set h | h in handles && handles[h].icon == icon
  }

  function CountOf(pins: map<Icon, nat>, icon: Icon): nat { if icon in pins then pins[icon] else 0 }

  function Added(pins: map<Icon, nat>, icon: Icon): map<Icon, nat> { pins[icon := CountOf(pins, icon) + 1] }

  function Taken(pins: map<Icon, nat>, icon: Icon): map<Icon, nat> {
    if CountOf(pins, icon) <= 1 then pins - {icon} else pins[icon := pins[icon] - 1]
  }

  /** Every icon's count is the number of its live handles, and no icon is listed with none. */
  ghost predicate Counted(pins: map<Icon, nat>, handles: map<nat, Handle>) {
    forall icon :: CountOf(pins, icon) == |Holders(handles, icon)| && (icon in pins ==> pins[icon] > 0)
  }

  lemma PinCounted(pins: map<Icon, nat>, handles: map<nat, Handle>, id: nat, icon: Icon, stored: bool)
    requires Counted(pins, handles) && id !in handles
    ensures Counted(Added(pins, icon), handles[id := Handle(icon, stored)])
  {
    var after := handles[id := Handle(icon, stored)];
    forall i ensures CountOf(Added(pins, icon), i) == |Holders(after, i)| {
      PinHolders(handles, id, icon, stored, i);
    }
  }

  lemma PinHolders(handles: map<nat, Handle>, id: nat, icon: Icon, stored: bool, i: Icon)
    requires id !in handles
    ensures |Holders(handles[id := Handle(icon, stored)], i)| == |Holders(handles, i)| + if i == icon then 1 else 0
  {
    var after := handles[id := Handle(icon, stored)];
    if i == icon {
      assert Holders(after, i) == Holders(handles, i) + {id};
    } else {
      assert Holders(after, i) == Holders(handles, i);
    }
  }

  lemma UnpinCounted(pins: map<Icon, nat>, handles: map<nat, Handle>, id: nat)
    requires Counted(pins, handles) && id in handles
    ensures Counted(Taken(pins, handles[id].icon), handles - {id})
  {
    var icon, after := handles[id].icon, handles - {id};
    assert id in Holders(handles, icon);
    forall i ensures CountOf(Taken(pins, icon), i) == |Holders(after, i)| {
      if i == icon {
        assert Holders(after, i) == Holders(handles, i) - {id};
      } else {
        assert Holders(after, i) == Holders(handles, i);
      }
    }
  }

  lemma StoredCounted(pins: map<Icon, nat>, handles: map<nat, Handle>, id: nat)
    requires Counted(pins, handles) && id in handles
    ensures Counted(pins, handles[id := Handle(handles[id].icon, true)])
  {
    var after := handles[id := Handle(handles[id].icon, true)];
    forall i ensures Holders(after, i) == Holders(handles, i) {
    }
  }

  lemma PinnedHasHandle(pins: map<Icon, nat>, handles: map<nat, Handle>, id: nat)
    requires Counted(pins, handles) && id in handles
    ensures handles[id].icon in pins
  {
    assert id in Holders(handles, handles[id].icon);
    assert CountOf(pins, handles[id].icon) == |Holders(handles, handles[id].icon)|;
  }

  // ----- The steps -------------------------------------------------------------------------------------------------

  ghost predicate Bound(s: State, icon: Icon) { exists o :: o in s.bindings && s.bindings[o] == icon }

  ghost predicate BoundElsewhere(s: State, owner: Owner, icon: Icon) {
    exists o :: o in s.bindings && o != owner && s.bindings[o] == icon
  }

  /** A pin and an unpin need the lock free; an install commits only while it is pinned and its icon stored. */
  ghost predicate Enabled(s: State, step: Step) {
    match step
    case Pin(id, _) => s.custody.Free? && id !in s.handles
    case Put(id, contents) =>
      id in s.handles && (s.handles[id].icon in s.files ==> s.files[s.handles[id].icon] == contents)
    case Commit(id, _) => id in s.handles && s.handles[id].stored
    case Unbind(_) => true
    case Unpin(id) => s.custody.Free? && id in s.handles
    case Discard(_) => s.custody.Free?
    case DiscardRead => s.custody.Discarding?
    case DiscardUnlink(_) => s.custody.Unlinking?
    case Retire(_, _) => s.custody.Free?
    case RetireRead => s.custody.Retiring?
    case RetireUnlink(_) => s.custody.RetireUnlinking?
    case RetireDelete(_) => s.custody.RetireDeleting?
    case Crash => true
  }

  ghost function After(s: State, step: Step): State
    requires Enabled(s, step)
  {
    match step
    case Pin(id, icon) => s.(pins := Added(s.pins, icon), handles := s.handles[id := Handle(icon, false)])
    case Put(id, contents) =>
      var icon := s.handles[id].icon;
      s.(files := s.files[icon := contents], handles := s.handles[id := Handle(icon, true)])
    case Commit(id, owner) => s.(bindings := s.bindings[owner := s.handles[id].icon], orphaned := s.orphaned - {owner})
    case Unbind(owner) => s.(bindings := s.bindings - {owner}, orphaned := s.orphaned - {owner})
    case Unpin(id) => s.(pins := Taken(s.pins, s.handles[id].icon), handles := s.handles - {id})
    case Discard(icon) => if icon in s.pins then s else s.(custody := Discarding(icon))
    case DiscardRead => s.(custody := if Bound(s, s.custody.icon) then Free else Unlinking(s.custody.icon))
    case DiscardUnlink(removed) => s.(files := if removed then s.files - {s.custody.icon} else s.files, custody := Free)
    case Retire(owner, icon) => s.(custody := Retiring(owner, icon))
    case RetireRead =>
      var c := s.custody;
      s.(custody := if c.icon !in s.pins && !BoundElsewhere(s, c.owner, c.icon) then RetireUnlinking(c.owner, c.icon)
                    else RetireDeleting(c.owner))
    case RetireUnlink(removed) =>
      var c := s.custody;
      if !removed then s.(custody := Free)
      else s.(files := s.files - {c.icon}, custody := RetireDeleting(c.owner),
              orphaned := if c.owner in s.bindings && s.bindings[c.owner] == c.icon then s.orphaned + {c.owner}
                          else s.orphaned)
    case RetireDelete(deleted) =>
      var owner := s.custody.owner;
      if deleted then s.(bindings := s.bindings - {owner}, orphaned := s.orphaned - {owner}, custody := Free)
      else s.(custody := Free)
    case Crash => s.(pins := map[], handles := map[], custody := Free)
  }

  // ----- What every step keeps -------------------------------------------------------------------------------------

  /** While the lock is held for an unlink, nothing pins the icon and nothing else binds it. */
  ghost predicate CustodyInv(s: State) {
    match s.custody
    case Discarding(icon) => icon !in s.pins
    case Unlinking(icon) => icon !in s.pins && !Bound(s, icon)
    case RetireUnlinking(owner, icon) => icon !in s.pins && !BoundElsewhere(s, owner, icon)
    case _ => true
  }

  /** Every icon stored under a live pin is there, and so is every committed binding's, but for a retired owner's
      own. */
  ghost predicate Kept(s: State) {
    && (forall h :: h in s.handles && s.handles[h].stored ==> s.handles[h].icon in s.files)
    && (forall o :: o in s.bindings ==> s.bindings[o] in s.files || o in s.orphaned)
  }

  ghost predicate Inv(s: State) { Counted(s.pins, s.handles) && CustodyInv(s) && Kept(s) }

  /** What an unlink may remove: no pinned icon, and no committed binding's but the retiring owner's. */
  ghost predicate UnlinkSafe(s: State, step: Step) {
    && (step.DiscardUnlink? && s.custody.Unlinking? ==> s.custody.icon !in s.pins && !Bound(s, s.custody.icon))
    && (step.RetireUnlink? && s.custody.RetireUnlinking? ==>
          s.custody.icon !in s.pins && !BoundElsewhere(s, s.custody.owner, s.custody.icon))
  }

  lemma PinKeeps(s: State, step: Step)
    requires Inv(s) && Enabled(s, step) && (step.Pin? || step.Unpin? || step.Put?)
    ensures Inv(After(s, step))
  {
    match step
    case Pin(id, icon) => PinCounted(s.pins, s.handles, id, icon, false);
    case Unpin(id) => UnpinCounted(s.pins, s.handles, id);
    case Put(id, _) => StoredCounted(s.pins, s.handles, id);
  }

  lemma CommitKeeps(s: State, id: nat, owner: Owner)
    requires Inv(s) && Enabled(s, Commit(id, owner))
    ensures Inv(After(s, Commit(id, owner)))
  {
    PinnedHasHandle(s.pins, s.handles, id);
  }

  lemma UnlinkKeeps(s: State, step: Step)
    requires Inv(s) && Enabled(s, step) && (step.DiscardUnlink? || step.RetireUnlink?)
    ensures Inv(After(s, step))
  {
    forall h | h in s.handles ensures s.handles[h].icon in s.pins {
      PinnedHasHandle(s.pins, s.handles, h);
    }
  }

  lemma StepKeeps(s: State, step: Step)
    requires Inv(s) && Enabled(s, step)
    ensures Inv(After(s, step))
  {
    if step.Pin? || step.Unpin? || step.Put? {
      PinKeeps(s, step);
    } else if step.Commit? {
      CommitKeeps(s, step.id, step.owner);
    } else if step.DiscardUnlink? || step.RetireUnlink? {
      UnlinkKeeps(s, step);
    } else if step.Crash? {
      assert forall i :: Holders(map[], i) == {};
    }
  }

  const Fresh := State(map[], map[], map[], Free, map[], {})

  ghost function Run(steps: seq<Step>): Option<State> {
    if steps == [] then Some(Fresh)
    else
      var before := Run(steps[..|steps| - 1]);
      if before.Some? && Enabled(before.value, steps[|steps| - 1]) then Some(After(before.value, steps[|steps| - 1]))
      else None
  }

  lemma {:induction false} RunKeeps(steps: seq<Step>)
    requires Run(steps).Some?
    ensures Inv(Run(steps).value)
    decreases |steps|
  {
    if steps == [] {
      assert forall i :: Holders(map[], i) == {};
    } else {
      RunKeeps(steps[..|steps| - 1]);
      StepKeeps(Run(steps[..|steps| - 1]).value, steps[|steps| - 1]);
    }
  }

  /** In every interleaving, and after every crash: an icon's pin count is the number of its live handles, no pinned
      icon and no committed binding's icon is unlinked but the retiring owner's own when nothing else holds it, and so
      every committed binding's icon is stored unless its own retire removed it. */
  lemma RunSafe(steps: seq<Step>, step: Step)
    requires Run(steps).Some?
    ensures
      var s := Run(steps).value;
      && (forall icon :: CountOf(s.pins, icon) == |Holders(s.handles, icon)|)
      && UnlinkSafe(s, step)
      && (forall o :: o in s.bindings && o !in s.orphaned ==> s.bindings[o] in s.files)
      && (forall h :: h in s.handles && s.handles[h].stored ==> s.handles[h].icon in s.files)
  {
    RunKeeps(steps);
  }

  /** An owner is orphaned only since its own retire unlinked the icon it was bound to. */
  ghost predicate OrphanedAt(steps: seq<Step>, o: Owner, j: int) {
    && 0 <= j < |steps| && steps[j] == RetireUnlink(true)
    && Run(steps[..j]).Some? && Run(steps[..j]).value.custody.RetireUnlinking?
    && Run(steps[..j]).value.custody.owner == o && o in Run(steps[..j]).value.bindings
    && Run(steps[..j]).value.bindings[o] == Run(steps[..j]).value.custody.icon
    && forall k :: j < k < |steps| ==> !(steps[k].Commit? && steps[k].owner == o)
  }

  /** One step leaves an owner orphaned only if it was and is not committed again, or by its own retire's unlink. */
  lemma OrphanStep(s: State, step: Step, o: Owner)
    requires Enabled(s, step) && o in After(s, step).orphaned
    ensures
      || (o in s.orphaned && !(step.Commit? && step.owner == o))
      || (step == RetireUnlink(true) && s.custody.RetireUnlinking? && s.custody.owner == o && o in s.bindings
          && s.bindings[o] == s.custody.icon)
  {
  }

  lemma {:induction false} OrphanedLonger(steps: seq<Step>, o: Owner, j: int)
    requires steps != [] && OrphanedAt(steps[..|steps| - 1], o, j)
    requires !(steps[|steps| - 1].Commit? && steps[|steps| - 1].owner == o)
    ensures OrphanedAt(steps, o, j)
  {
    var before := steps[..|steps| - 1];
    assert before[..j] == steps[..j];
    assert forall k :: 0 <= k < |before| ==> before[k] == steps[k];
  }

  lemma {:induction false} OrphanedByRetire(steps: seq<Step>, o: Owner)
    requires Run(steps).Some? && o in Run(steps).value.orphaned
    ensures exists j :: OrphanedAt(steps, o, j)
    decreases |steps|
  {
    var n := |steps| - 1;
    var before := Run(steps[..n]).value;
    OrphanStep(before, steps[n], o);
    if o in before.orphaned && !(steps[n].Commit? && steps[n].owner == o) {
      OrphanedByRetire(steps[..n], o);
      var j :| OrphanedAt(steps[..n], o, j);
      OrphanedLonger(steps, o, j);
    } else {
      assert OrphanedAt(steps, o, n);
    }
  }

  // ----- The store -------------------------------------------------------------------------------------------------

  /** The store and the registry it reads, between lock sections of one process. */
  class IconStore {
    var pins: map<Icon, nat>
    var files: map<Icon, string>
    var bindings: map<Owner, Icon>
    ghost var steps: seq<Step>
    ghost var state: State

    ghost predicate Valid()
      reads this
    {
      && Run(steps) == Some(state) && state.custody.Free?
      && pins == state.pins && files == state.files && bindings == state.bindings
    }

    constructor ()
      ensures Valid() && pins == map[] && files == map[] && bindings == map[]
    {
      pins, files, bindings := map[], map[], map[];
      steps, state := [], Fresh;
    }

    ghost method Take(step: Step)
      requires Run(steps) == Some(state) && Enabled(state, step)
      modifies this`steps, this`state
      ensures Run(steps) == Some(state) && state == After(old(state), step)
    {
      var longer := steps + [step];
      assert longer[..|longer| - 1] == steps && longer[|longer| - 1] == step;
      state := After(state, step);
      steps := longer;
    }

    method PinIcon(ghost id: nat, icon: Icon)
      requires Valid() && id !in state.handles
      modifies this`pins, this`steps, this`state
      ensures Valid() && pins == Added(old(pins), icon)
        && state.handles == old(state.handles)[id := Handle(icon, false)]
    {
      pins := Added(pins, icon);
      Take(Pin(id, icon));
    }

    /** Pins the icon and stores it; a failure to store lets the pin go. `valid` is whether the bytes have the digest
        and a stored icon could be read, `writes` whether a new one could be written. */
    method Retain(ghost id: nat, icon: Icon, contents: string, valid: bool, writes: bool) returns (ok: bool)
      requires Valid() && id !in state.handles
      modifies this
      ensures Valid() && bindings == old(bindings)
      ensures ok <==> valid && if icon in old(files) then old(files)[icon] == contents else writes
      ensures ok ==>
        files == old(files)[icon := contents] && state.handles == old(state.handles)[id := Handle(icon, true)]
      ensures ok ==> CountOf(pins, icon) == CountOf(old(pins), icon) + 1
      ensures !ok ==>
        && files == old(files) && state.handles == old(state.handles)
        && CountOf(pins, icon) == CountOf(old(pins), icon)
      ensures forall i :: i != icon ==> CountOf(pins, i) == CountOf(old(pins), i)
    {
      PinIcon(id, icon);
      ok := valid && if icon in files then files[icon] == contents else writes;
      if ok {
        Store(id, icon, contents);
      } else {
        Release(id, icon);
        assert state.handles == old(state.handles);
      }
    }

    /** Stores a pinned icon. */
    method Store(ghost id: nat, icon: Icon, contents: string)
      requires Valid() && id in state.handles && state.handles[id] == Handle(icon, false)
      requires icon in files ==> files[icon] == contents
      modifies this`files, this`steps, this`state
      ensures Valid() && files == old(files)[icon := contents]
      ensures state.handles == old(state.handles)[id := Handle(icon, true)]
    {
      files := files[icon := contents];
      Take(Put(id, contents));
    }

    /** Ends one pin. */
    method Release(ghost id: nat, icon: Icon)
      requires Valid() && id in state.handles && state.handles[id].icon == icon
      modifies this`pins, this`steps, this`state
      ensures Valid() && state.handles == old(state.handles) - {id}
      ensures CountOf(pins, icon) + 1 == CountOf(old(pins), icon)
      ensures forall i :: i != icon ==> CountOf(pins, i) == CountOf(old(pins), i)
    {
      RunKeeps(steps);
      PinnedHasHandle(pins, state.handles, id);
      if icon in pins {
        pins := Taken(pins, icon);
      }
      Take(Unpin(id));
    }

    /** Commits a binding of a pinned, stored icon. */
    method Bind(ghost id: nat, icon: Icon, owner: Owner)
      requires Valid() && id in state.handles && state.handles[id] == Handle(icon, true)
      modifies this`bindings, this`steps, this`state
      ensures Valid() && bindings == old(bindings)[owner := icon]
    {
      bindings := bindings[owner := icon];
      Take(Commit(id, owner));
    }

    /** A discard between its lock sections: a pin or a binding that names the icon stops it. */
    method Drop(icon: Icon, unlinks: bool)
      requires Valid()
      modifies this`files, this`steps, this`state
      ensures Valid()
      ensures
        var held := icon in pins || exists o :: o in bindings && bindings[o] == icon;
        files == if held || !unlinks then old(files) else old(files) - {icon}
    {
      Take(Discard(icon));
      if icon in pins {
        return;
      }
      assert Bound(state, icon) <==> exists o :: o in bindings && bindings[o] == icon;
      Take(DiscardRead);
      if exists o :: o in bindings && bindings[o] == icon {
        return;
      }
      assert state.custody == Unlinking(icon);
      Take(DiscardUnlink(unlinks));
      if unlinks {
        files := files - {icon};
      }
    }

    /** A retire between its lock sections: the unlink comes before the delete and its failure stops both. */
    method RetireBinding(owner: Owner, icon: Icon, unlinks: bool, deletes: bool) returns (ok: bool)
      requires Valid()
      modifies this`files, this`bindings, this`steps, this`state
      ensures Valid()
      ensures
        var held := icon in pins || exists o :: o in old(bindings) && o != owner && old(bindings)[o] == icon;
        && ok == ((held || unlinks) && deletes)
        && files == (if held || !unlinks then old(files) else old(files) - {icon})
        && bindings == if ok then old(bindings) - {owner} else old(bindings)
    {
      Take(Retire(owner, icon));
      var held := icon in pins || exists o :: o in bindings && o != owner && bindings[o] == icon;
      assert held <==> icon in state.pins || BoundElsewhere(state, owner, icon);
      Take(RetireRead);
      if !held {
        Take(RetireUnlink(unlinks));
        if !unlinks {
          return false;
        }
        files := files - {icon};
      }
      Take(RetireDelete(deletes));
      if deletes {
        bindings := bindings - {owner};
      }
      return deletes;
    }
  }
}
