/** Groups pushed by a SCIM provider, and the counts of membership changes reported for them. */
module ScimGroups {
  import opened SortedStrings
  import opened Wrappers

  type ExternalId = string

  datatype Group = Group(externalId: ExternalId, tenantId: string, displayName: string, active: bool,
                         members: seq<string>)

  datatype Summary = Summary(usersChanged: nat, usersDisabled: nat, membershipsChanged: nat,
                             groupsChanged: nat, groupsDisabled: nat)

  const NO_CHANGE := Summary(0, 0, 0, 0, 0)

  datatype ScimError = NotFound

  function SymmetricDifference(a: set<string>, b: set<string>): set<string> {
    (a - b) + (b - a)
  }

  /** How many members entered or left, counting repeats in neither list. */
  method MembershipDiffCount(left: seq<string>, right: seq<string>) returns (count: nat)
    ensures count == |SymmetricDifference(ElementsOf(left), ElementsOf(right))|
    ensures count == |ElementsOf(left) - ElementsOf(right)| + |ElementsOf(right) - ElementsOf(left)|
  {
    var l, r := set s | s in left, set s | s in right;
    count := |l - r| + |r - l|;
    assert (l - r) !! (r - l);
  }

  // ----- Patching members -----

  function MembersAfter(was: set<string>, add: set<string>, remove: set<string>): set<string> {
    (was + add) - remove
  }

  /** Additions are counted against the old members, removals against old members and additions. */
  function ChangesCounted(was: set<string>, add: set<string>, remove: set<string>): nat {
    |add - was| + |remove * (was + add)|
  }

  /** The count is the number of members that entered or left, and two for each new member that was
      added and removed by the same patch. */
  lemma CountIsDifference(was: set<string>, add: set<string>, remove: set<string>)
    ensures ChangesCounted(was, add, remove)
         == |SymmetricDifference(was, MembersAfter(was, add, remove))| + 2 * |(add * remove) - was|
  {
    var entered, left, both := (add - was) - remove, was * remove, (add * remove) - was;
    assert add - was == entered + both && entered !! both;
    assert remove * (was + add) == left + both && left !! both;
    assert SymmetricDifference(was, MembersAfter(was, add, remove)) == entered + left && entered !! left;
  }

  /** Swapping additions and removals undoes a patch exactly when nothing added was there before and
      everything removed was there after adding. */
  lemma SwapUndoes(was: set<string>, add: set<string>, remove: set<string>)
    ensures MembersAfter(MembersAfter(was, add, remove), remove, add) == was
       <==> add !! was && remove <= was + add
  {
    var back := MembersAfter(MembersAfter(was, add, remove), remove, add);
    assert back == (was + remove) - add;
    if back == was {
      forall s | s in add ensures s !in was {
        assert s !in back;
      }
      forall s | s in remove ensures s in was + add {
        assert s !in add ==> s in back;
      }
    }
  }

  /** For ascending lists, as patches store them, that is the original list. */
  lemma SwapRestoresTheList(list: seq<string>, add: set<string>, remove: set<string>,
                            patched: seq<string>, swapped: seq<string>)
    requires Ascending(list) && Ascending(swapped)
    requires ElementsOf(patched) == MembersAfter(ElementsOf(list), add, remove)
    requires ElementsOf(swapped) == MembersAfter(ElementsOf(patched), remove, add)
    ensures swapped == list <==> add !! ElementsOf(list) && remove <= ElementsOf(list) + add
  {
    SwapUndoes(ElementsOf(list), add, remove);
    hide Ascending, ElementsOf;
    if ElementsOf(swapped) == ElementsOf(list) { AscendingIsUnique(swapped, list); }
  }

  lemma OneMoreElement(list: seq<string>, i: nat)
    requires i < |list|
    ensures ElementsOf(list[..i + 1]) == ElementsOf(list[..i]) + {list[i]}
  {
    assert list[..i + 1] == list[..i] + [list[i]];
  }

  method InsertAll(before: set<string>, add: seq<string>) returns (members: set<string>, changed: nat)
    ensures members == before + ElementsOf(add) && changed == |ElementsOf(add) - before|
  {
    hide ElementsOf;
    members, changed := before, 0;
    assert ElementsOf(add[..0]) == {} by { NoElements(); }
    for i := 0 to |add|
      invariant members == before + ElementsOf(add[..i])
      invariant changed == |ElementsOf(add[..i]) - before|
    {
      OneMoreElement(add, i);
      if add[i] !in members {
        assert ElementsOf(add[..i + 1]) - before == (ElementsOf(add[..i]) - before) + {add[i]};
        members := members + {add[i]};
        changed := changed + 1;
      } else {
        assert ElementsOf(add[..i + 1]) - before == ElementsOf(add[..i]) - before;
      }
    }
    assert add[..|add|] == add;
  }

  method RemoveAll(before: set<string>, remove: seq<string>) returns (members: set<string>, changed: nat)
    ensures members == before - ElementsOf(remove) && changed == |ElementsOf(remove) * before|
  {
    hide ElementsOf;
    members, changed := before, 0;
    assert ElementsOf(remove[..0]) == {} by { NoElements(); }
    for i := 0 to |remove|
      invariant members == before - ElementsOf(remove[..i])
      invariant changed == |ElementsOf(remove[..i]) * before|
    {
      OneMoreElement(remove, i);
      if remove[i] in members {
        assert ElementsOf(remove[..i + 1]) * before == (ElementsOf(remove[..i]) * before) + {remove[i]};
        members := members - {remove[i]};
        changed := changed + 1;
      } else {
        assert ElementsOf(remove[..i + 1]) * before == ElementsOf(remove[..i]) * before;
      }
    }
    assert remove[..|remove|] == remove;
  }

  lemma NoElements()
    ensures ElementsOf([]) == {}
  {
  }

  class GroupDirectory {
    var groups: map<ExternalId, Group>

    constructor ()
      ensures groups == map[]
    {
      groups := map[];
    }

    ghost function MembersOf(id: ExternalId): set<string>
      reads this
    {
      if id in groups then ElementsOf(groups[id].members) else {}
    }

    method Upsert(group: Group) returns (summary: Summary)
      modifies this
      ensures group.externalId in groups
      ensures var stored := groups[group.externalId];
              && groups == old(groups)[group.externalId := stored]
              && stored == group.(members := stored.members)
              && Ascending(stored.members) && ElementsOf(stored.members) == ElementsOf(group.members)
      ensures var was, now := old(MembersOf(group.externalId)), ElementsOf(group.members);
              summary == Summary(0, 0, |was - now| + |now - was|, 1, 0)
    {
      var members := SortDedup(group.members);
      var previous := if group.externalId in groups then groups[group.externalId].members else [];
      groups := groups[group.externalId := group.(members := members)];
      var changed := MembershipDiffCount(previous, members);
      if previous == [] {
        AscendingSize(members);
        assert ElementsOf(previous) - ElementsOf(members) == {};
        assert ElementsOf(members) - ElementsOf(previous) == ElementsOf(members);
        changed := |members|;
      }
      summary := NO_CHANGE.(groupsChanged := 1, membershipsChanged := changed);
    }

    method Patch(id: ExternalId, displayName: Option<string>, active: Option<bool>)
      returns (reply: Result<Summary, ScimError>)
      modifies this
      ensures reply.Ok? <==> id in old(groups)
      ensures reply.Err? ==> groups == old(groups)
      ensures reply.Ok? ==>
                var was := old(groups)[id];
                && groups == old(groups)[id := was.(
                     displayName := if displayName.Some? then displayName.value else was.displayName,
                     active := if active.Some? then active.value else was.active)]
                && reply.value == Summary(0, 0, 0, 1, if groups[id].active then 0 else 1)
    {
      if id !in groups {
        return Err(NotFound);
      }
      var group := groups[id];
      if displayName.Some? { group := group.(displayName := displayName.value); }
      if active.Some? { group := group.(active := active.value); }
      groups := groups[id := group];
      reply := Ok(NO_CHANGE.(groupsChanged := 1, groupsDisabled := if group.active then 0 else 1));
    }

    method PatchMembers(id: ExternalId, add: seq<string>, remove: seq<string>)
      returns (reply: Result<Summary, ScimError>)
      modifies this
      ensures reply.Ok? <==> id in old(groups)
      ensures reply.Err? ==> groups == old(groups)
      ensures reply.Ok? ==>
                && id in groups
                && groups == old(groups)[id := old(groups)[id].(members := groups[id].members)]
                && Ascending(groups[id].members)
                && MembersOf(id) == MembersAfter(old(MembersOf(id)), ElementsOf(add), ElementsOf(remove))
                && (forall s :: s in groups[id].members <==> (s in old(groups)[id].members || s in add) && s !in remove)
                && reply.value == Summary(0, 0, ChangesCounted(old(MembersOf(id)), ElementsOf(add), ElementsOf(remove)), 1, 0)
    {
      if id !in groups {
        return Err(NotFound);
      }
      var before := set s | s in groups[id].members;
      var joined, added := InsertAll(before, add);
      var members, removed := RemoveAll(joined, remove);
      var listed := ListInOrder(members);
      forall s ensures s in listed <==> (s in groups[id].members || s in add) && s !in remove {
        assert s in listed <==> s in ElementsOf(listed);
      }
      groups := groups[id := groups[id].(members := listed)];
      reply := Ok(NO_CHANGE.(groupsChanged := 1, membershipsChanged := added + removed));
    }

    method Disable(id: ExternalId) returns (reply: Result<Summary, ScimError>)
      modifies this
      ensures reply == if id in old(groups) then Ok(Summary(0, 0, 0, 0, 1)) else Err(NotFound)
      ensures groups == if id in old(groups) then old(groups)[id := old(groups)[id].(active := false)] else old(groups)
    {
      if id !in groups {
        return Err(NotFound);
      }
      groups := groups[id := groups[id].(active := false)];
      reply := Ok(NO_CHANGE.(groupsDisabled := 1));
    }

    method Delete(id: ExternalId) returns (reply: Result<Summary, ScimError>)
      modifies this
      ensures reply == if id in old(groups) then Ok(Summary(0, 0, 0, 1, 0)) else Err(NotFound)
      ensures groups == old(groups) - {id}
    {
      if id !in groups {
        return Err(NotFound);
      }
      groups := groups - {id};
      reply := Ok(NO_CHANGE.(groupsChanged := 1));
    }
  }

  /** An ordered set lists its elements in ascending order. */
  method ListInOrder(elements: set<string>) returns (list: seq<string>)
    ensures Ascending(list) && ElementsOf(list) == elements
  {
    list := [];
    var rest := elements;
    while rest != {}
      invariant rest <= elements
      invariant Ascending(list) && ElementsOf(list) == elements - rest
      decreases |rest|
    {
      var s :| s in rest;
      var added;
      list, added := Insert(list, s);
      rest := rest - {s};
    }
  }
}
