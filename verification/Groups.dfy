/**
Group channels: membership, roles and the succession of the owner. Each request is
one atomic step.
*/
module Groups {
  import opened Text
  import opened Lists
  import Vaults

  const MAX_GROUP_MEMBERS: nat := 50

  datatype Role = Owner | Admin | Plain

  datatype Member = Member(address: string, role: Role, joinedAt: int)

  // Member rows in the order the channel lists them.
  datatype Channel = Channel(owner: string, members: seq<Member>)

  // `capable` are the active accounts with an encryption key.
  datatype World = World(channels: map<string, Channel>, users: set<string>, capable: set<string>)

  datatype Request =
    | Create(caller: string, addresses: seq<string>, id: string, at: int)
    | Add(caller: string, channel: string, address: string, at: int)
    | Remove(caller: string, channel: string, address: string)
    | SetRole(caller: string, channel: string, address: string, role: Option<Role>)
    | LeaveAll(address: string)
    | Accounts(users: set<string>, capable: set<string>)

  datatype Answer = Answer(w: World, status: nat)

  // ---- Rows ----

  function Others(address: string): Member -> bool { (m: Member) => m.address != address }

  // `find_group_member`: the first row of an address.
  function Find(ms: seq<Member>, address: string): (m: Option<Member>)
    ensures m.Some? ==> m.value in ms && m.value.address == address
    ensures m.None? ==> forall x :: x in ms ==> x.address != address
  {
    if ms == [] then None
    else if ms[0].address == address then Some(ms[0])
    else Find(ms[1..], address)
  }

  predicate OneRowEach(ms: seq<Member>) {
    forall i, j :: 0 <= i < j < |ms| ==> ms[i].address != ms[j].address
  }

  // The rows with one address given another role.
  function WithRole(address: string, role: Role): Member -> Member {
    (m: Member) => if m.address == address then m.(role := role) else m
  }

  // ---- Succession ----

  function FirstAdmin(ms: seq<Member>): (m: Option<Member>)
    ensures m.Some? ==> m.value in ms && m.value.role == Admin
    ensures m.None? ==> forall x :: x in ms ==> x.role != Admin
  {
    if ms == [] then None
    else if ms[0].role == Admin then Some(ms[0])
    else FirstAdmin(ms[1..])
  }

  function Earliest(ms: seq<Member>): (m: Member)
    requires ms != []
    ensures m in ms && forall x :: x in ms ==> m.joinedAt <= x.joinedAt
  {
    if |ms| == 1 then ms[0]
    else
      var later := Earliest(ms[1..]);
      assert forall x :: x in ms <==> x == ms[0] || x in ms[1..];
      if ms[0].joinedAt <= later.joinedAt then ms[0] else later
  }

  // Who inherits: an admin if there is one, else the longest-standing member.
  function Successor(remaining: seq<Member>): (m: Member)
    requires remaining != []
    ensures m in remaining
    ensures (exists x :: x in remaining && x.role == Admin) ==> m.role == Admin
    ensures !(exists x :: x in remaining && x.role == Admin) ==> forall x :: x in remaining ==> m.joinedAt <= x.joinedAt
  {
    if FirstAdmin(remaining).Some? then FirstAdmin(remaining).value else Earliest(remaining)
  }

  // `succeed_group_owner`: None where the channel is deleted.
  function Succeed(ch: Channel, remaining: seq<Member>): Option<Channel> {
    if remaining == [] then None
    else
      var heir := Successor(remaining).address;
      Some(Channel(heir, Map(WithRole(heir, Owner), ch.members)))
  }

  // A member gone: succession first if they owned the channel, then their rows.
  function Depart(ch: Channel, address: string): Option<Channel> {
    var remaining := Filter(Others(address), ch.members);
    var row := Find(ch.members, address);
    if row.Some? && row.value.role == Owner then
      match Succeed(ch, remaining)
      case None => None
      case Some(next) => Some(next.(members := Filter(Others(address), next.members)))
    else Some(ch.(members := remaining))
  }

  // ---- Requests ----

  // `can_remove_group_member`
  predicate CanRemove(caller: Member, target: Member) {
    || Lower(caller.address) == Lower(target.address)
    || caller.role == Owner
    || (caller.role == Admin && target.role == Plain)
  }

  function NewMembers(caller: string, addresses: seq<string>, at: int): (ms: seq<Member>)
    ensures |ms| == |addresses|
    ensures forall i :: 0 <= i < |ms| ==> ms[i] == Member(addresses[i], if addresses[i] == caller then Owner else Plain, at)
  {
    if addresses == [] then []
    else
      [Member(addresses[0], if addresses[0] == caller then Owner else Plain, at)] + NewMembers(caller, addresses[1..], at)
  }

  function MembersToBe(caller: string, addresses: seq<string>): seq<string> {
    var lowered := Vaults.Lowered(addresses);
    if caller in lowered then lowered else lowered + [caller]
  }

  function DoCreate(w: World, caller: string, addresses: seq<string>, id: string, at: int): Answer {
    var who := MembersToBe(caller, addresses);
    if |who| > MAX_GROUP_MEMBERS then Answer(w, 400)
    else if exists a :: a in who && a !in w.users then Answer(w, 404)
    else if exists a :: a in who && a !in w.capable then Answer(w, 400)
    else Answer(w.(channels := w.channels[id := Channel(caller, NewMembers(caller, who, at))]), 200)
  }

  function DoAdd(w: World, caller: string, channel: string, address: string, at: int): Answer {
    if channel !in w.channels then Answer(w, 404)
    else
      var ch := w.channels[channel];
      var row := Find(ch.members, Lower(caller));
      if !(row.Some? && row.value.role != Plain) then Answer(w, 403)
      else if Find(ch.members, Lower(address)).Some? then Answer(w, 400)
      else if Lower(address) !in w.users then Answer(w, 404)
      else if Lower(address) !in w.capable then Answer(w, 400)
      else if |ch.members| >= MAX_GROUP_MEMBERS then Answer(w, 400)
      else
        var next := ch.(members := ch.members + [Member(Lower(address), Plain, at)]);
        Answer(w.(channels := w.channels[channel := next]), 200)
  }

  function Put(channels: map<string, Channel>, id: string, ch: Option<Channel>): map<string, Channel> {
    if ch.Some? then channels[id := ch.value] else channels - {id}
  }

  function DoRemove(w: World, caller: string, channel: string, address: string): Answer {
    if channel !in w.channels then Answer(w, 404)
    else
      var ch := w.channels[channel];
      var row, target := Find(ch.members, Lower(caller)), Find(ch.members, Lower(address));
      if row.None? then Answer(w, 403)
      else if target.None? then Answer(w, 404)
      else if !CanRemove(row.value, target.value) then Answer(w, 403)
      else Answer(w.(channels := Put(w.channels, channel, Depart(ch, Lower(address)))), 200)
  }

  // `role` is None for a word that is neither "admin" nor "member".
  function DoSetRole(w: World, caller: string, channel: string, address: string, role: Option<Role>): Answer {
    if channel !in w.channels then Answer(w, 404)
    else
      var ch := w.channels[channel];
      var row, target := Find(ch.members, Lower(caller)), Find(ch.members, Lower(address));
      if !(row.Some? && row.value.role == Owner) then Answer(w, 403)
      else if target.None? then Answer(w, 404)
      else if target.value.role == Owner then Answer(w, 400)
      else if role.None? || role.value == Owner then Answer(w, 400)
      else
        var next := ch.(members := Map(WithRole(Lower(address), role.value), ch.members));
        Answer(w.(channels := w.channels[channel := next]), 200)
  }

  // The channels an address has a row in.
  function ChannelsOf(w: World, address: string): set<string> {
    set c | c in w.channels && Find(w.channels[c].members, address).Some?
  }

  // `_leave_all_groups`, channel by channel.
  function LeaveEach(w: World, address: string): World {
    w.(channels :=
      map c | c in w.channels && (c in ChannelsOf(w, address) ==> Depart(w.channels[c], address).Some?) ::
        if c in ChannelsOf(w, address) then Depart(w.channels[c], address).value else w.channels[c])
  }

  function Handle(w: World, rq: Request): Answer {
    match rq
    case Create(caller, addresses, id, at) => DoCreate(w, caller, addresses, id, at)
    case Add(caller, channel, address, at) => DoAdd(w, caller, channel, address, at)
    case Remove(caller, channel, address) => DoRemove(w, caller, channel, address)
    case SetRole(caller, channel, address, role) => DoSetRole(w, caller, channel, address, role)
    case LeaveAll(address) => Answer(LeaveEach(w, address), 200)
    case Accounts(users, capable) => Answer(w.(users := users, capable := capable), 200)
  }

  // Callers are active accounts, and a new channel's id is fresh.
  predicate Enabled(w: World, rq: Request) {
    match rq
    case Create(caller, _, id, _) => Lower(caller) == caller && id !in w.channels
    case LeaveAll(address) => Lower(address) == address
    case Accounts(_, _) => true
    case _ => Lower(rq.caller) == rq.caller
  }

  // ---- The invariant ----

  // Someone in it, at most fifty of them and each once, and exactly one owner
  // row, that of the recorded owner.
  predicate ChannelOk(ch: Channel) {
    && 0 < |ch.members| <= MAX_GROUP_MEMBERS
    && OneRowEach(ch.members)
    && (forall m :: m in ch.members ==> Lower(m.address) == m.address)
    && (forall m :: m in ch.members ==> (m.role == Owner <==> m.address == ch.owner))
    && Find(ch.members, ch.owner).Some?
  }

  predicate AllOk(w: World) { forall c :: c in w.channels ==> ChannelOk(w.channels[c]) }

  lemma FindRow(ms: seq<Member>, m: Member)
    requires OneRowEach(ms) && m in ms
    ensures Find(ms, m.address) == Some(m)
  {
    var found := Find(ms, m.address).value;
    var i :| 0 <= i < |ms| && ms[i] == m;
    var j :| 0 <= j < |ms| && ms[j] == found;
  }

  lemma {:induction false} FilterRows(p: Member -> bool, ms: seq<Member>)
    requires OneRowEach(ms)
    ensures OneRowEach(Filter(p, ms)) && |Filter(p, ms)| <= |ms|
  {
    if ms != [] {
      FilterRows(p, ms[1..]);
      var tail := Filter(p, ms[1..]);
      forall j | 0 <= j < |tail| ensures tail[j].address != ms[0].address {
        assert tail[j] in ms[1..];
      }
    }
  }

  lemma RoleKeepsRows(ms: seq<Member>, address: string, role: Role)
    requires OneRowEach(ms)
    ensures OneRowEach(Map(WithRole(address, role), ms))
  {
    forall i | 0 <= i < |ms| ensures Map(WithRole(address, role), ms)[i].address == ms[i].address {
    }
  }

  // The row a changed row was.
  lemma RowBefore(ms: seq<Member>, address: string, role: Role, x: Member) returns (m: Member)
    requires x in Map(WithRole(address, role), ms)
    ensures m in ms && m.address == x.address && x.role == (if x.address == address then role else m.role)
  {
    var i :| 0 <= i < |ms| && Map(WithRole(address, role), ms)[i] == x;
    m := ms[i];
  }

  lemma FoundIfPresent(ms: seq<Member>, m: Member)
    requires m in ms
    ensures Find(ms, m.address).Some?
  {
  }

  // The rows after a succession: the heir owns, nobody else does.
  lemma Promoted(ch: Channel, address: string, heir: Member, x: Member)
    requires ChannelOk(ch) && address == ch.owner && heir in ch.members && heir.address != address
    requires x in Filter(Others(address), Map(WithRole(heir.address, Owner), ch.members))
    ensures Lower(x.address) == x.address && (x.role == Owner <==> x.address == heir.address)
  {
    var m := RowBefore(ch.members, heir.address, Owner, x);
  }

  // The owner leaving: the heir becomes the one owner.
  lemma SuccessionOk(ch: Channel, address: string)
    requires ChannelOk(ch) && address == ch.owner && Filter(Others(address), ch.members) != []
    ensures Depart(ch, address).Some? && ChannelOk(Depart(ch, address).value)
    ensures Depart(ch, address).value.owner == Successor(Filter(Others(address), ch.members)).address
  {
    var remaining := Filter(Others(address), ch.members);
    var heir := Successor(remaining);
    var promoted := Map(WithRole(heir.address, Owner), ch.members);
    var left := Filter(Others(address), promoted);
    FindRow(ch.members, Find(ch.members, address).value);
    RoleKeepsRows(ch.members, heir.address, Owner);
    FilterRows(Others(address), promoted);
    forall x | x in left ensures Lower(x.address) == x.address && (x.role == Owner <==> x.address == heir.address) {
      Promoted(ch, address, heir, x);
    }
    FoundIfPresent(left, heir.(role := Owner));
  }

  // Anyone else leaving.
  lemma DepartureOk(ch: Channel, address: string)
    requires ChannelOk(ch) && address != ch.owner
    ensures Depart(ch, address).Some? && ChannelOk(Depart(ch, address).value) && Depart(ch, address).value.owner == ch.owner
  {
    var remaining := Filter(Others(address), ch.members);
    FilterRows(Others(address), ch.members);
    var owner := Find(ch.members, ch.owner).value;
    FoundIfPresent(remaining, owner);
  }

  // A departure deletes the channel exactly when the member was alone in it, and
  // otherwise leaves it in order without them.
  lemma DepartOk(ch: Channel, address: string)
    requires ChannelOk(ch)
    ensures Depart(ch, address).None? <==> Filter(Others(address), ch.members) == []
    ensures Depart(ch, address).Some? ==>
      && ChannelOk(Depart(ch, address).value)
      && Find(Depart(ch, address).value.members, address).None? && Depart(ch, address).value.owner != address
  {
    if address != ch.owner {
      DepartureOk(ch, address);
      assert Find(ch.members, ch.owner).value in Filter(Others(address), ch.members);
    } else if Filter(Others(address), ch.members) != [] {
      SuccessionOk(ch, address);
    }
  }

  predicate Distinct(xs: seq<string>) { forall i, j :: 0 <= i < j < |xs| ==> xs[i] != xs[j] }

  lemma NewRows(caller: string, who: seq<string>, at: int)
    requires Distinct(who)
    ensures OneRowEach(NewMembers(caller, who, at))
  {
  }

  lemma NewMembersOk(caller: string, who: seq<string>, at: int)
    requires Distinct(who) && caller in who && |who| <= MAX_GROUP_MEMBERS && forall a :: a in who ==> Lower(a) == a
    ensures ChannelOk(Channel(caller, NewMembers(caller, who, at)))
  {
    var ms := NewMembers(caller, who, at);
    NewRows(caller, who, at);
    forall m | m in ms ensures Lower(m.address) == m.address && (m.role == Owner <==> m.address == caller) {
    }
    var k :| 0 <= k < |who| && who[k] == caller;
    FoundIfPresent(ms, ms[k]);
  }

  lemma CreateOk(w: World, caller: string, addresses: seq<string>, id: string, at: int)
    requires AllOk(w) && Lower(caller) == caller
    ensures AllOk(DoCreate(w, caller, addresses, id, at).w)
  {
    var who := MembersToBe(caller, addresses);
    if |who| <= MAX_GROUP_MEMBERS { NewMembersOk(caller, who, at); }
  }

  lemma AddedOk(ch: Channel, m: Member)
    requires ChannelOk(ch) && |ch.members| < MAX_GROUP_MEMBERS && Find(ch.members, m.address).None?
    requires m.role == Plain && Lower(m.address) == m.address
    ensures ChannelOk(ch.(members := ch.members + [m]))
  {
    var owner := Find(ch.members, ch.owner).value;
    assert owner in ch.members + [m];
    FoundIfPresent(ch.members + [m], owner);
    assert forall i :: 0 <= i < |ch.members| ==> ch.members[i] in ch.members;
  }

  lemma AddOk(w: World, caller: string, channel: string, address: string, at: int)
    requires AllOk(w)
    ensures AllOk(DoAdd(w, caller, channel, address, at).w)
  {
    if DoAdd(w, caller, channel, address, at).status == 200 {
      AddedOk(w.channels[channel], Member(Lower(address), Plain, at));
    }
  }

  lemma RoleSetOk(ch: Channel, a: string, role: Role)
    requires ChannelOk(ch) && a != ch.owner && role != Owner
    ensures ChannelOk(ch.(members := Map(WithRole(a, role), ch.members)))
  {
    var after := Map(WithRole(a, role), ch.members);
    RoleKeepsRows(ch.members, a, role);
    forall x | x in after ensures Lower(x.address) == x.address && (x.role == Owner <==> x.address == ch.owner) {
      var m := RowBefore(ch.members, a, role, x);
    }
    var owner := Find(ch.members, ch.owner).value;
    FoundIfPresent(after, owner);
  }

  lemma SetRoleOk(w: World, caller: string, channel: string, address: string, role: Option<Role>)
    requires AllOk(w)
    ensures AllOk(DoSetRole(w, caller, channel, address, role).w)
  {
    if DoSetRole(w, caller, channel, address, role).status == 200 {
      var ch := w.channels[channel];
      assert ChannelOk(ch);
      FindRow(ch.members, Find(ch.members, Lower(address)).value);
      RoleSetOk(ch, Lower(address), role.value);
    }
  }

  lemma RemoveOk(w: World, caller: string, channel: string, address: string)
    requires AllOk(w)
    ensures AllOk(DoRemove(w, caller, channel, address).w)
  {
    if DoRemove(w, caller, channel, address).status == 200 {
      DepartOk(w.channels[channel], Lower(address));
    }
  }

  lemma LeaveEachOk(w: World, address: string)
    requires AllOk(w)
    ensures AllOk(LeaveEach(w, address))
  {
    forall c | c in LeaveEach(w, address).channels ensures ChannelOk(LeaveEach(w, address).channels[c]) {
      if c in ChannelsOf(w, address) { DepartOk(w.channels[c], address); }
    }
  }

  // Main result: every request keeps every channel in order.
  lemma HandleOk(w: World, rq: Request)
    requires AllOk(w) && Enabled(w, rq)
    ensures AllOk(Handle(w, rq).w)
  {
    match rq
    case Create(caller, addresses, id, at) => CreateOk(w, caller, addresses, id, at);
    case Add(caller, channel, address, at) => AddOk(w, caller, channel, address, at);
    case Remove(caller, channel, address) => RemoveOk(w, caller, channel, address);
    case SetRole(caller, channel, address, role) => SetRoleOk(w, caller, channel, address, role);
    case LeaveAll(address) => LeaveEachOk(w, address);
    case Accounts(_, _) =>
  }

  predicate Legal(w: World, rqs: seq<Request>)
    decreases |rqs|
  {
    rqs == [] || (Enabled(w, rqs[0]) && Legal(Handle(w, rqs[0]).w, rqs[1..]))
  }

  function Run(w: World, rqs: seq<Request>): World
    decreases |rqs|
  {
    if rqs == [] then w else Run(Handle(w, rqs[0]).w, rqs[1..])
  }

  // Main result: over any run of requests every channel has between one and
  // fifty members, each once, and exactly one owner, the recorded one.
  lemma {:induction false} EveryRunInOrder(w: World, rqs: seq<Request>)
    requires AllOk(w) && Legal(w, rqs)
    ensures AllOk(Run(w, rqs))
    decreases |rqs|
  {
    if rqs != [] {
      HandleOk(w, rqs[0]);
      EveryRunInOrder(Handle(w, rqs[0]).w, rqs[1..]);
    }
  }

  // Main result: nobody removes an owner. An accepted removal that takes a
  // channel's owner away was the owner's own.
  lemma OwnerOnlyLeaves(w: World, caller: string, channel: string, address: string)
    requires AllOk(w) && channel in w.channels && Lower(caller) == caller
    requires DoRemove(w, caller, channel, address).status == 200
    requires Lower(address) == w.channels[channel].owner
    ensures caller == Lower(address)
  {
    assert ChannelOk(w.channels[channel]);
  }

  // The role an address has in a channel, if it has one.
  function RoleIn(w: World, channel: string, address: string): Option<Role> {
    if channel !in w.channels then None
    else
      match Find(w.channels[channel].members, address)
      case None => None
      case Some(m) => Some(m.role)
  }

  // A departure makes no one an admin.
  lemma DepartNoAdmin(ch: Channel, address: string, a: string)
    requires ChannelOk(ch) && Depart(ch, address).Some?
    requires var m := Find(Depart(ch, address).value.members, a); m.Some? && m.value.role == Admin
    ensures Find(ch.members, a).Some? && Find(ch.members, a).value.role == Admin
  {
    var row := Find(ch.members, address);
    var remaining := Filter(Others(address), ch.members);
    var m := Find(Depart(ch, address).value.members, a).value;
    if row.Some? && row.value.role == Owner {
      var heir := Successor(remaining).address;
      var m0 := RowBefore(ch.members, heir, Owner, m);
      FindRow(ch.members, m0);
    } else {
      FindRow(ch.members, m);
    }
  }

  // A role change gives no other row of the channel a new role.
  lemma RoleOnlyAt(ms: seq<Member>, address: string, role: Role, a: string)
    requires OneRowEach(ms) && Find(Map(WithRole(address, role), ms), a).Some? && a != address
    ensures Find(ms, a).Some? && Find(ms, a).value.role == Find(Map(WithRole(address, role), ms), a).value.role
  {
    var m := Find(Map(WithRole(address, role), ms), a).value;
    var m0 := RowBefore(ms, address, role, m);
    FindRow(ms, m0);
  }

  lemma SetRoleAdmins(w: World, caller: string, channel: string, address: string, role: Option<Role>, c: string, a: string)
    requires AllOk(w) && RoleIn(DoSetRole(w, caller, channel, address, role).w, c, a) == Some(Admin) && RoleIn(w, c, a) != Some(Admin)
    ensures c == channel && a == Lower(address) && channel in w.channels && Lower(caller) == w.channels[channel].owner
  {
    var ch := w.channels[channel];
    assert ChannelOk(ch);
    if c == channel && a != Lower(address) {
      RoleOnlyAt(ch.members, Lower(address), role.value, a);
    }
  }
  lemma {:induction false} FindSnoc(ms: seq<Member>, m: Member, a: string)
    ensures Find(ms + [m], a)
         == if Find(ms, a).Some? then Find(ms, a) else if m.address == a then Some(m) else None
  {
    if ms != [] {
      assert (ms + [m])[1..] == ms[1..] + [m];
      FindSnoc(ms[1..], m, a);
    }
  }

  lemma AddNoAdmin(w: World, caller: string, channel: string, address: string, at: int, c: string, a: string)
    requires AllOk(w) && RoleIn(DoAdd(w, caller, channel, address, at).w, c, a) == Some(Admin)
    ensures RoleIn(w, c, a) == Some(Admin)
  {
    if DoAdd(w, caller, channel, address, at).status == 200 && c == channel {
      FindSnoc(w.channels[c].members, Member(Lower(address), Plain, at), a);
    }
  }

  lemma RemoveNoAdmin(w: World, caller: string, channel: string, address: string, c: string, a: string)
    requires AllOk(w) && RoleIn(DoRemove(w, caller, channel, address).w, c, a) == Some(Admin)
    ensures RoleIn(w, c, a) == Some(Admin)
  {
    if DoRemove(w, caller, channel, address).status == 200 && c == channel {
      DepartNoAdmin(w.channels[c], Lower(address), a);
    }
  }

  // Main result: only a channel's owner makes admins. A member who is an admin
  // after a request, and was not one before it, was promoted by the owner.
  lemma AdminsMadeByOwner(w: World, rq: Request, c: string, a: string)
    requires AllOk(w) && Enabled(w, rq)
    requires RoleIn(Handle(w, rq).w, c, a) == Some(Admin) && RoleIn(w, c, a) != Some(Admin)
    ensures rq.SetRole? && rq.channel == c && Lower(rq.address) == a
    ensures c in w.channels && rq.caller == w.channels[c].owner
  {
    match rq
    case Create(caller, addresses, id, at) =>
    case Add(caller, channel, address, at) => AddNoAdmin(w, caller, channel, address, at, c, a);
    case Remove(caller, channel, address) => RemoveNoAdmin(w, caller, channel, address, c, a);
    case SetRole(caller, channel, address, role) => SetRoleAdmins(w, caller, channel, address, role, c, a);
    case LeaveAll(address) => if c in ChannelsOf(w, address) { DepartNoAdmin(w.channels[c], address, a); }
    case Accounts(_, _) =>
  }

  // ---- Leaving everything is leaving each ----

  // The leave endpoint applied to one channel after another.
  function LeaveInTurn(w: World, address: string, cs: seq<string>): World
    decreases |cs|
  {
    if cs == [] then w else LeaveInTurn(DoRemove(w, address, cs[0], address).w, address, cs[1..])
  }

  // Main result: `_leave_all_groups` does what the leave endpoint does to each of
  // the user's groups, in whatever order they are taken.
  lemma {:induction false} LeaveAllIsLeavingEach(w: World, address: string, cs: seq<string>)
    requires AllOk(w) && Lower(address) == address
    requires (forall c :: c in cs <==> c in ChannelsOf(w, address)) && Distinct(cs)
    ensures LeaveInTurn(w, address, cs) == LeaveEach(w, address)
    decreases |cs|
  {
    if cs == [] {
      assert LeaveEach(w, address).channels == w.channels;
    } else {
      var next := DoRemove(w, address, cs[0], address).w;
      assert cs[0] in cs;
      DepartOk(w.channels[cs[0]], address);
      RemoveOk(w, address, cs[0], address);
      LeftOnce(w, next, address, cs);
      LeaveAllIsLeavingEach(next, address, cs[1..]);
      LeaveEachAfter(w, next, address, cs[0]);
    }
  }

  lemma TailHolds(cs: seq<string>, c: string)
    requires cs != [] && Distinct(cs)
    ensures c in cs[1..] <==> c in cs && c != cs[0]
  {
    if c in cs && c != cs[0] {
      var i :| 0 <= i < |cs| && cs[i] == c;
      assert cs[1..][i - 1] == c;
    }
  }

  lemma LeftOnce(w: World, next: World, address: string, cs: seq<string>)
    requires cs != [] && (forall c :: c in cs <==> c in ChannelsOf(w, address)) && Distinct(cs)
    requires cs[0] in ChannelsOf(w, address) && next.channels == Put(w.channels, cs[0], Depart(w.channels[cs[0]], address))
    requires Depart(w.channels[cs[0]], address).Some? ==> Find(Depart(w.channels[cs[0]], address).value.members, address).None?
    ensures forall c :: c in cs[1..] <==> c in ChannelsOf(next, address)
  {
    forall c ensures c in cs[1..] <==> c in ChannelsOf(next, address) {
      TailHolds(cs, c);
    }
  }

  lemma LeaveEachAfter(w: World, next: World, address: string, c: string)
    requires c in ChannelsOf(w, address)
    requires next == w.(channels := Put(w.channels, c, Depart(w.channels[c], address)))
    requires Depart(w.channels[c], address).Some? ==> Find(Depart(w.channels[c], address).value.members, address).None?
    ensures LeaveEach(next, address) == LeaveEach(w, address)
  {
    assert LeaveEach(next, address).channels == LeaveEach(w, address).channels;
  }

  // ---- The endpoints ----

  class Store {
    var channels: map<string, Channel>
    var users: set<string>
    var capable: set<string>

    function State(): World
      reads this
    {
      World(channels, users, capable)
    }

    constructor ()
      ensures State() == World(map[], {}, {})
    {
      channels, users, capable := map[], {}, {};
    }

    method CreateGroup(caller: string, addresses: seq<string>, id: string, at: int) returns (status: nat)
      modifies this`channels
      ensures Answer(State(), status) == DoCreate(old(State()), caller, addresses, id, at)
    {
      var who := Vaults.Lowered(addresses);
      if caller !in who { who := who + [caller]; }
      if |who| > MAX_GROUP_MEMBERS { return 400; }
      if exists a :: a in who && a !in users { return 404; }
      if exists a :: a in who && a !in capable { return 400; }
      var ms := BuildMembers(caller, who, at);
      channels := channels[id := Channel(caller, ms)];
      status := 200;
    }

    method AddMember(caller: string, channel: string, address: string, at: int) returns (status: nat)
      modifies this`channels
      ensures Answer(State(), status) == DoAdd(old(State()), caller, channel, address, at)
    {
      if channel !in channels { return 404; }
      var ch := channels[channel];
      var row := Find(ch.members, Lower(caller));
      if row.None? || row.value.role == Plain { return 403; }
      if Find(ch.members, Lower(address)).Some? { return 400; }
      if Lower(address) !in users { return 404; }
      if Lower(address) !in capable { return 400; }
      if |ch.members| >= MAX_GROUP_MEMBERS { return 400; }
      channels := channels[channel := ch.(members := ch.members + [Member(Lower(address), Plain, at)])];
      status := 200;
    }

    // `succeed_group_owner` and the delete that follows it, on one channel.
    method LeaveChannel(channel: string, address: string, wasOwner: bool) returns (deleted: bool)
      requires channel in channels
      requires var row := Find(channels[channel].members, address); wasOwner == (row.Some? && row.value.role == Owner)
      modifies this`channels
      ensures channels == Put(old(channels), channel, Depart(old(channels)[channel], address))
      ensures deleted == Depart(old(channels)[channel], address).None?
    {
      var ch := channels[channel];
      var remaining := Filter(Others(address), ch.members);
      if wasOwner {
        if remaining == [] {
          channels := channels - {channel};
          return true;
        }
        var heir := PickSuccessor(remaining);
        ch := Channel(heir.address, Map(WithRole(heir.address, Owner), ch.members));
      }
      channels := channels[channel := ch.(members := Filter(Others(address), ch.members))];
      deleted := false;
    }

    method RemoveMember(caller: string, channel: string, address: string) returns (status: nat)
      modifies this`channels
      ensures Answer(State(), status) == DoRemove(old(State()), caller, channel, address)
    {
      if channel !in channels { return 404; }
      var ch := channels[channel];
      var row := Find(ch.members, Lower(caller));
      if row.None? { return 403; }
      var target := Find(ch.members, Lower(address));
      if target.None? { return 404; }
      if !CanRemove(row.value, target.value) { return 403; }
      var _ := LeaveChannel(channel, Lower(address), target.value.role == Owner);
      status := 200;
    }

    method UpdateMemberRole(caller: string, channel: string, address: string, role: Option<Role>) returns (status: nat)
      modifies this`channels
      ensures Answer(State(), status) == DoSetRole(old(State()), caller, channel, address, role)
    {
      if channel !in channels { return 404; }
      var ch := channels[channel];
      var row := Find(ch.members, Lower(caller));
      if row.None? || row.value.role != Owner { return 403; }
      var target := Find(ch.members, Lower(address));
      if target.None? { return 404; }
      if target.value.role == Owner { return 400; }
      if role.None? || role.value == Owner { return 400; }
      channels := channels[channel := ch.(members := Map(WithRole(Lower(address), role.value), ch.members))];
      status := 200;
    }

    // `_leave_all_groups`: every membership, then the channels still pointing at
    // the leaver as owner. There are none of those, so the second pass does nothing.
    method LeaveAllGroups(address: string)
      requires AllOk(State())
      modifies this`channels
      ensures State() == LeaveEach(old(State()), address)
    {
      ghost var w := State();
      var todo := ChannelsOf(State(), address);
      while todo != {}
        invariant todo <= ChannelsOf(w, address)
        invariant Partly(w, address, todo, channels)
      {
        var c :| c in todo;
        var row := Find(channels[c].members, address);
        ghost var before := channels;
        var _ := LeaveChannel(c, address, row.Some? && row.value.role == Owner);
        PartlyStep(w, address, todo, before, c);
        todo := todo - {c};
      }
      PartlyDone(w, address, channels);
      OrphanPassIdle(w, address);
      channels := OrphanPass(channels, address);
    }
  }

  // The second pass of `_leave_all_groups`.
  function OrphanPass(channels: map<string, Channel>, address: string): map<string, Channel> {
    map c | c in channels && (channels[c].owner == address ==> Filter(Others(address), channels[c].members) != []) ::
      if channels[c].owner == address then Succeed(channels[c], Filter(Others(address), channels[c].members)).value
      else channels[c]
  }

  // Main result: after the first pass nothing is orphaned, so the second is idle.
  lemma OrphanPassIdle(w: World, address: string)
    requires AllOk(w)
    ensures OrphanPass(LeaveEach(w, address).channels, address) == LeaveEach(w, address).channels
  {
    forall c | c in LeaveEach(w, address).channels ensures LeaveEach(w, address).channels[c].owner != address {
      DepartOk(w.channels[c], address);
    }
  }

  // Part-way through: the channels already visited are left, the others untouched.
  ghost predicate Partly(w: World, address: string, todo: set<string>, channels: map<string, Channel>) {
    forall c ::
      && (c in channels <==> c in w.channels && (c in ChannelsOf(w, address) - todo ==> Depart(w.channels[c], address).Some?))
      && (c in channels ==>
            channels[c] == if c in ChannelsOf(w, address) - todo then Depart(w.channels[c], address).GetOr(w.channels[c]) else w.channels[c])
  }

  lemma PartlyStep(w: World, address: string, todo: set<string>, channels: map<string, Channel>, c: string)
    requires Partly(w, address, todo, channels) && c in todo && todo <= ChannelsOf(w, address)
    ensures Partly(w, address, todo - {c}, Put(channels, c, Depart(w.channels[c], address)))
  {
  }

  lemma PartlyDone(w: World, address: string, channels: map<string, Channel>)
    requires Partly(w, address, {}, channels)
    ensures channels == LeaveEach(w, address).channels
  {
  }

  method BuildMembers(caller: string, who: seq<string>, at: int) returns (ms: seq<Member>)
    ensures ms == NewMembers(caller, who, at)
  {
    ms := [];
    for i := 0 to |who|
      invariant |ms| == i
      invariant forall k :: 0 <= k < i ==> ms[k] == Member(who[k], if who[k] == caller then Owner else Plain, at)
    {
      ms := ms + [Member(who[i], if who[i] == caller then Owner else Plain, at)];
    }
  }

  method PickSuccessor(remaining: seq<Member>) returns (heir: Member)
    requires remaining != []
    ensures heir == Successor(remaining)
  {
    for i := 0 to |remaining|
      invariant FirstAdmin(remaining) == FirstAdmin(remaining[i..])
    {
      assert remaining[i..][1..] == remaining[i + 1..];
      if remaining[i].role == Admin { return remaining[i]; }
    }
    heir := Earliest(remaining);
  }
}
