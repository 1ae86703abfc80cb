/** The users reported to the SCIM provider, with the groups each belongs to. The report is built from
    an inverted index of the groups, whose entries are taken out as they are used. */
module ScimListing {
  import opened Wrappers
  import opened SortedStrings
  import opened ScimDirectory
  import Groups = ScimGroups

  datatype ScimUser = ScimUser(externalId: ExternalId, tenantId: string, userName: Username,
                               displayName: string, email: string, active: bool, groups: seq<string>)

  /** Groups by member, with repeats and in no particular order. */
  type Index = map<ExternalId, seq<string>>

  function ActiveGroups(groups: seq<Groups.Group>, id: ExternalId): set<string> {
    set group | group in groups && group.active && id in group.members :: group.externalId
  }

  function Entry(index: Index, id: ExternalId): seq<string> {
    if id in index then index[id] else []
  }

  function Indexed(index: Index, id: ExternalId, group: string): Index {
    index[id := Entry(index, id) + [group]]
  }

  predicate IsReported(account: Account) {
    account.source.Scim? && account.externalId.Some?
  }

  predicate Describes(user: ScimUser, account: Account) {
    && account.externalId == Some(user.externalId) && account.tenantId == user.tenantId
    && account.username == user.userName && account.displayName == user.displayName
    && account.email == user.email && account.active == user.active
  }

  predicate SeenBefore(report: seq<ScimUser>, k: nat)
    requires k < |report|
  {
    exists j :: 0 <= j < k && report[j].externalId == report[k].externalId
  }

  /** Every SCIM account with an external id appears once. The first to be reported under an external
      id has the active groups listing it, in order and without repeats; later ones have none. */
  ghost predicate IsReport(users: Users, groups: seq<Groups.Group>, report: seq<ScimUser>) {
    && (forall k | 0 <= k < |report| ::
          && report[k].userName in users && IsReported(users[report[k].userName])
          && Describes(report[k], users[report[k].userName]))
    && (forall username | username in users && IsReported(users[username]) ::
          exists k :: 0 <= k < |report| && report[k].userName == username)
    && (forall j, k | 0 <= j < k < |report| :: report[j].userName != report[k].userName)
    && (forall k | 0 <= k < |report| :: GroupsAt(groups, report, k))
  }

  ghost predicate GroupsAt(groups: seq<Groups.Group>, report: seq<ScimUser>, k: nat)
    requires k < |report|
  {
    && Ascending(report[k].groups)
    && ElementsOf(report[k].groups)
       == if SeenBefore(report, k) then {} else ActiveGroups(groups, report[k].externalId)
  }

  ghost predicate HasItsGroups(groups: seq<Groups.Group>, user: ScimUser) {
    Ascending(user.groups) && ElementsOf(user.groups) == ActiveGroups(groups, user.externalId)
  }

  /** Two SCIM accounts share an external id that an active group lists. */
  ghost predicate SharedAndListed(users: Users, groups: seq<Groups.Group>, a: Username, b: Username) {
    && a in users && b in users && a != b && IsReported(users[a]) && IsReported(users[b])
    && users[a].externalId == users[b].externalId
    && ActiveGroups(groups, users[a].externalId.value) != {}
  }

  /** In whatever order the accounts are visited, every user is reported with exactly the active groups
      that list it if and only if no two SCIM accounts share an external id that an active group
      lists. */
  lemma ReportIsRightExactly(users: Users, groups: seq<Groups.Group>, report: seq<ScimUser>)
    requires IsReport(users, groups, report)
    ensures (forall k | 0 <= k < |report| :: HasItsGroups(groups, report[k]))
       <==> forall a, b :: !SharedAndListed(users, groups, a, b)
  {
    hide ActiveGroups, Ascending, ElementsOf;
    if a, b :| SharedAndListed(users, groups, a, b) {
      var i :| 0 <= i < |report| && report[i].userName == a;
      var j :| 0 <= j < |report| && report[j].userName == b;
      assert report[i].externalId == report[j].externalId;
      var last := if i < j then j else i;
      assert SeenBefore(report, last) && GroupsAt(groups, report, last);
      assert !HasItsGroups(groups, report[last]);
    } else {
      forall k | 0 <= k < |report| ensures HasItsGroups(groups, report[k]) {
        assert GroupsAt(groups, report, k);
        if SeenBefore(report, k) {
          var j :| 0 <= j < k && report[j].externalId == report[k].externalId;
          assert !SharedAndListed(users, groups, report[j].userName, report[k].userName);
        }
      }
    }
  }

  /** Since the directory keeps external ids unique, the report is right. */
  lemma ReportIsRight(users: Users, groups: seq<Groups.Group>, report: seq<ScimUser>)
    requires Inv(users) && IsReport(users, groups, report)
    ensures forall k | 0 <= k < |report| :: HasItsGroups(groups, report[k])
  {
    forall a, b ensures !SharedAndListed(users, groups, a, b) {
      if SharedAndListed(users, groups, a, b) {
        var id := users[a].externalId.value;
        assert Has(users, a, id) && Has(users, b, id);
        assert false;
      }
    }
    ReportIsRightExactly(users, groups, report);
  }

  // ----- Ended groups -----

  ghost predicate KeyedGroups(groups: map<string, Groups.Group>) {
    forall id | id in groups :: groups[id].externalId == id
  }

  /** `list` holds the groups of the directory, in any order. */
  ghost predicate ListsGroups(list: seq<Groups.Group>, groups: map<string, Groups.Group>) {
    forall group :: group in list <==> group.externalId in groups && groups[group.externalId] == group
  }

  /** Disabling or deleting a group takes it, and nothing else, off what every user is reported with. */
  lemma EndedGroupListsNobody(groups: map<string, Groups.Group>, ended: string, groups': map<string, Groups.Group>,
                              list: seq<Groups.Group>, list': seq<Groups.Group>, user: ExternalId)
    requires ended in groups && KeyedGroups(groups) && ListsGroups(list, groups) && ListsGroups(list', groups')
    requires groups' == groups - {ended} || groups' == groups[ended := groups[ended].(active := false)]
    ensures ActiveGroups(list', user) == ActiveGroups(list, user) - {ended}
  {
    forall id ensures id in ActiveGroups(list', user) <==> id in ActiveGroups(list, user) - {ended} {
      InActiveGroups(groups, list, user, id);
      InActiveGroups(groups', list', user, id);
    }
  }

  lemma InActiveGroups(groups: map<string, Groups.Group>, list: seq<Groups.Group>, user: ExternalId, id: string)
    requires KeyedGroups(groups) && ListsGroups(list, groups)
    ensures id in ActiveGroups(list, user) <==> id in groups && groups[id].active && user in groups[id].members
  {
    if id in groups { assert groups[id] in list; }
  }

  // ----- Building the report -----

  ghost predicate IndexOk(index: Index, groups: seq<Groups.Group>) {
    forall id: ExternalId :: ElementsOf(Entry(index, id)) == ActiveGroups(groups, id)
  }

  method IndexGroups(groups: seq<Groups.Group>) returns (index: Index)
    ensures IndexOk(index, groups)
  {
    index := map[];
    for i := 0 to |groups|
      invariant IndexOk(index, groups[..i])
    {
      assert groups[..i + 1] == groups[..i] + [groups[i]];
      if groups[i].active {
        index := IndexMembers(index, groups[..i], groups[i]);
      } else {
        InactiveAddsNothing(groups[..i], groups[i]);
      }
    }
    assert groups[..|groups|] == groups;
  }

  lemma InactiveAddsNothing(groups: seq<Groups.Group>, group: Groups.Group)
    requires !group.active
    ensures forall id :: ActiveGroups(groups + [group], id) == ActiveGroups(groups, id)
  {
  }

  lemma ActiveAdds(groups: seq<Groups.Group>, group: Groups.Group, id: ExternalId)
    requires group.active
    ensures ActiveGroups(groups + [group], id)
         == ActiveGroups(groups, id) + (if id in group.members then {group.externalId} else {})
  {
    assert (groups + [group])[|groups|] == group;
    forall g | g in groups ensures g in groups + [group] {
    }
  }

  method IndexMembers(before: Index, ghost groups: seq<Groups.Group>, group: Groups.Group) returns (index: Index)
    requires IndexOk(before, groups) && group.active
    ensures IndexOk(index, groups + [group])
  {
    hide ActiveGroups;
    index := before;
    for i := 0 to |group.members|
      invariant forall id: ExternalId :: ElementsOf(Entry(index, id))
                  == ActiveGroups(groups, id) + (if id in group.members[..i] then {group.externalId} else {})
    {
      var member := group.members[i];
      assert group.members[..i + 1] == group.members[..i] + [member];
      OneMoreEntry(Entry(index, member), group.externalId);
      index := Indexed(index, member, group.externalId);
    }
    assert group.members[..|group.members|] == group.members;
    forall id: ExternalId ensures ElementsOf(Entry(index, id)) == ActiveGroups(groups + [group], id) {
      ActiveAdds(groups, group, id);
    }
  }

  lemma OneMoreEntry(entry: seq<string>, group: string)
    ensures ElementsOf(entry + [group]) == ElementsOf(entry) + {group}
  {
  }

  function Described(account: Account, groups: seq<string>): ScimUser
    requires account.externalId.Some?
  {
    ScimUser(account.externalId.value, account.tenantId, account.username, account.displayName, account.email,
             account.active, groups)
  }

  /** The index while the report is built: the entries of the external ids reported so far are gone. */
  ghost predicate Consumed(index: Index, groups: seq<Groups.Group>, report: seq<ScimUser>) {
    forall id: ExternalId ::
      ElementsOf(Entry(index, id))
      == if exists k :: 0 <= k < |report| && report[k].externalId == id then {} else ActiveGroups(groups, id)
  }

  method ScimUsers(users: Users, groups: seq<Groups.Group>) returns (report: seq<ScimUser>)
    requires Keyed(users)
    ensures IsReport(users, groups, report)
  {
    hide ActiveGroups, Ascending, ElementsOf;
    var index := IndexGroups(groups);
    report := [];
    var rest := users.Keys;
    while rest != {}
      invariant rest <= users.Keys
      invariant IsReport(map username | username in users && username !in rest :: users[username], groups, report)
      invariant Consumed(index, groups, report)
      decreases |rest|
    {
      var username :| username in rest;
      ghost var before := map other | other in users && other !in rest :: users[other];
      rest := rest - {username};
      ghost var after := map other | other in users && other !in rest :: users[other];
      assert after == before[username := users[username]];
      var account := users[username];
      if account.source.Scim? && account.externalId.Some? {
        var id := account.externalId.value;
        var sorted := SortDedup(Entry(index, id));
        OneMoreReported(before, groups, report, account, sorted);
        ConsumedMore(index, groups, report, Described(account, sorted));
        index := index - {id};
        report := report + [Described(account, sorted)];
      } else {
        NotReported(before, groups, report, account);
      }
    }
    assert users == map username | username in users && username !in rest :: users[username];
  }

  lemma NotReported(users: Users, groups: seq<Groups.Group>, report: seq<ScimUser>, account: Account)
    requires IsReport(users, groups, report) && !IsReported(account) && account.username !in users
    ensures IsReport(users[account.username := account], groups, report)
  {
    hide ActiveGroups, Ascending, ElementsOf;
  }

  lemma SeenInPrefix(report: seq<ScimUser>, user: ScimUser, k: nat)
    requires k <= |report|
    ensures k < |report| ==> SeenBefore(report + [user], k) == SeenBefore(report, k)
    ensures SeenBefore(report + [user], |report|) <==>
              exists j :: 0 <= j < |report| && report[j].externalId == user.externalId
  {
    var report' := report + [user];
    assert forall j | 0 <= j < |report| :: report'[j] == report[j];
    if k < |report| && SeenBefore(report, k) {
      var j :| 0 <= j < k && report[j].externalId == report[k].externalId;
      assert report'[j].externalId == report'[k].externalId;
    }
    if j :| 0 <= j < |report| && report[j].externalId == user.externalId {
      assert report'[j].externalId == report'[|report|].externalId;
    }
  }

  lemma OneMoreReported(users: Users, groups: seq<Groups.Group>, report: seq<ScimUser>, account: Account,
                        sorted: seq<string>)
    requires IsReport(users, groups, report) && IsReported(account) && account.username !in users
    requires Ascending(sorted)
    requires ElementsOf(sorted) ==
             if exists k :: 0 <= k < |report| && report[k].externalId == account.externalId.value then {}
             else ActiveGroups(groups, account.externalId.value)
    ensures IsReport(users[account.username := account], groups, report + [Described(account, sorted)])
  {
    hide ActiveGroups, Ascending, ElementsOf;
    var report' := report + [Described(account, sorted)];
    assert report'[|report|].userName == account.username;
    forall k | 0 <= k < |report'| ensures GroupsAt(groups, report', k) {
      SeenInPrefix(report, Described(account, sorted), k);
      assert k < |report| ==> GroupsAt(groups, report, k);
    }
    forall username | username in users && IsReported(users[username])
      ensures exists k :: 0 <= k < |report'| && report'[k].userName == username
    {
      var k :| 0 <= k < |report| && report[k].userName == username;
      assert report'[k].userName == username;
    }
  }

  lemma ConsumedMore(index: Index, groups: seq<Groups.Group>, report: seq<ScimUser>, user: ScimUser)
    requires Consumed(index, groups, report)
    ensures Consumed(index - {user.externalId}, groups, report + [user])
  {
    hide ActiveGroups;
    var index', report' := index - {user.externalId}, report + [user];
    assert report'[|report|] == user;
    forall id: ExternalId
      ensures ElementsOf(Entry(index', id))
           == if exists k :: 0 <= k < |report'| && report'[k].externalId == id then {} else ActiveGroups(groups, id)
    {
      if id != user.externalId {
        assert Entry(index', id) == Entry(index, id);
        if k :| 0 <= k < |report| && report[k].externalId == id { assert report'[k].externalId == id; }
      }
    }
  }
}
