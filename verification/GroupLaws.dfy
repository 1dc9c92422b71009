/**
What each request on a group is accepted for and what it then does, told from the rows
of the channel; and who can bring a member in or take one out.
*/
module GroupLaws {
  import opened Text
  import opened Lists
  import opened Groups
  import Vaults

  // ---- Rows, by address and role ----

  predicate Holds(ch: Channel, address: string, role: Role) {
    exists m :: m in ch.members && m.address == address && m.role == role
  }

  predicate IsIn(ch: Channel, address: string) { exists m :: m in ch.members && m.address == address }

  lemma Found(ch: Channel, address: string)
    requires OneRowEach(ch.members)
    ensures Find(ch.members, address).Some? <==> IsIn(ch, address)
    ensures forall role :: Holds(ch, address, role) <==>
              Find(ch.members, address).Some? && Find(ch.members, address).value.role == role
  {
    if IsIn(ch, address) {
      forall m | m in ch.members && m.address == address ensures Find(ch.members, address) == Some(m) {
        FindRow(ch.members, m);
      }
    }
  }

  // ---- Creating ----

  function Named(caller: string, addresses: seq<string>): set<string> { {caller} + set x | x in addresses :: Lower(x) }

  lemma NamedAreMembers(caller: string, addresses: seq<string>)
    ensures SetOf(MembersToBe(caller, addresses)) == Named(caller, addresses)
    ensures |MembersToBe(caller, addresses)| == |Named(caller, addresses)|
    ensures NoRepeats(MembersToBe(caller, addresses))
  {
    var who := MembersToBe(caller, addresses);
    forall a ensures a in who <==> a in Named(caller, addresses) {
    }
    NoRepeatsMultiset(who);
    assert |multiset(who)| == |multiset(SetOf(who))|;
  }

  function CreateStatus(w: World, caller: string, addresses: seq<string>): nat {
    var names := Named(caller, addresses);
    if |names| > 50 then 400
    else if exists a :: a in names && a !in w.users then 404
    else if exists a :: a in names && a !in w.capable then 400 else 200
  }

  lemma NamedRows(caller: string, addresses: seq<string>, at: int)
    ensures var rows, names := NewMembers(caller, MembersToBe(caller, addresses), at), Named(caller, addresses);
      && |rows| == |names|
      && forall a :: a in names ==> Member(a, if a == caller then Owner else Plain, at) in rows
  {
    var who := MembersToBe(caller, addresses);
    NamedAreMembers(caller, addresses);
    var rows := NewMembers(caller, who, at);
    forall a | a in Named(caller, addresses) ensures Member(a, if a == caller then Owner else Plain, at) in rows {
      assert a in SetOf(who);
      var i :| 0 <= i < |who| && who[i] == a;
      assert rows[i] in rows;
    }
  }

  lemma SomeAbsent(who: seq<string>, names: set<string>, here: set<string>)
    requires SetOf(who) == names
    ensures (exists a :: a in who && a !in here) <==> exists a :: a in names && a !in here
  {
    forall a ensures a in who <==> a in names {
      assert a in SetOf(who) <==> a in who;
    }
  }

  lemma CreateWrites(w: World, caller: string, addresses: seq<string>, id: string, at: int)
    ensures var after := DoCreate(w, caller, addresses, id, at);
      after.w == if after.status != 200 then w else
        w.(channels := w.channels[id := Channel(caller, NewMembers(caller, MembersToBe(caller, addresses), at))])
  {
  }

  function Judged(count: nat, unknown: bool, keyless: bool): nat {
    if count > 50 then 400 else if unknown then 404 else if keyless then 400 else 200
  }

  lemma CreateJudged(w: World, caller: string, addresses: seq<string>, id: string, at: int, who: seq<string>)
    requires who == MembersToBe(caller, addresses)
    ensures DoCreate(w, caller, addresses, id, at).status
         == Judged(|who|, exists a :: a in who && a !in w.users, exists a :: a in who && a !in w.capable)
  {
  }

  lemma NamesJudged(w: World, caller: string, addresses: seq<string>, names: set<string>)
    requires names == Named(caller, addresses)
    ensures CreateStatus(w, caller, addresses)
         == Judged(|names|, exists a :: a in names && a !in w.users, exists a :: a in names && a !in w.capable)
  {
  }

  lemma CreateDecided(w: World, caller: string, addresses: seq<string>, id: string, at: int)
    ensures DoCreate(w, caller, addresses, id, at).status == CreateStatus(w, caller, addresses)
  {
    var who, names := MembersToBe(caller, addresses), Named(caller, addresses);
    NamedAreMembers(caller, addresses);
    SomeAbsent(who, names, w.users);
    SomeAbsent(who, names, w.capable);
    CreateJudged(w, caller, addresses, id, at, who);
    NamesJudged(w, caller, addresses, names);
  }

  // A channel of the caller's with everyone who was named, each once, and nobody else.
  lemma GroupCreated(w: World, caller: string, addresses: seq<string>, id: string, at: int)
    ensures var after := DoCreate(w, caller, addresses, id, at);
      && after.status == CreateStatus(w, caller, addresses)
      && (after.status != 200 ==> after.w == w)
      && (after.status == 200 ==>
            && id in after.w.channels && after.w == w.(channels := w.channels[id := after.w.channels[id]])
            && var ch, names := after.w.channels[id], Named(caller, addresses);
               && ch.owner == caller && |ch.members| == |names|
               && forall a :: a in names ==> Member(a, if a == caller then Owner else Plain, at) in ch.members)
  {
    CreateWrites(w, caller, addresses, id, at);
    CreateDecided(w, caller, addresses, id, at);
    NamedRows(caller, addresses, at);
  }

  // ---- Adding ----

  predicate Administers(ch: Channel, address: string) { Holds(ch, address, Owner) || Holds(ch, address, Admin) }

  function AddStatus(w: World, caller: string, channel: string, address: string): nat {
    if channel !in w.channels then 404
    else
      var ch := w.channels[channel];
      if !Administers(ch, Lower(caller)) then 403
      else if IsIn(ch, Lower(address)) then 400
      else if Lower(address) !in w.users then 404
      else if Lower(address) !in w.capable then 400
      else if |ch.members| >= 50 then 400 else 200
  }

  // Owners and admins add members, as plain members.
  lemma MemberAdded(w: World, caller: string, channel: string, address: string, at: int)
    requires AllOk(w)
    ensures var after := DoAdd(w, caller, channel, address, at);
      && after.status == AddStatus(w, caller, channel, address)
      && after.w == if after.status != 200 then w else
           var ch := w.channels[channel];
           w.(channels := w.channels[channel := ch.(members := ch.members + [Member(Lower(address), Plain, at)])])
  {
    if channel in w.channels {
      var ch := w.channels[channel];
      assert ChannelOk(ch);
      Found(ch, Lower(caller));
      Found(ch, Lower(address));
    }
  }

  // ---- Roles ----

  function RoleStatus(w: World, caller: string, channel: string, address: string, role: Option<Role>): nat {
    if channel !in w.channels then 404
    else
      var ch := w.channels[channel];
      if !Holds(ch, Lower(caller), Owner) then 403
      else if !IsIn(ch, Lower(address)) then 404
      else if Holds(ch, Lower(address), Owner) then 400
      else if role == None || role == Some(Owner) then 400 else 200
  }

  // The owner alone makes and unmakes admins; one row changes, by its role.
  lemma RoleChanged(w: World, caller: string, channel: string, address: string, role: Option<Role>)
    requires AllOk(w)
    ensures var after := DoSetRole(w, caller, channel, address, role);
      && after.status == RoleStatus(w, caller, channel, address, role)
      && (after.status != 200 ==> after.w == w)
      && (after.status == 200 ==>
            && channel in after.w.channels
            && var ch, next := w.channels[channel], after.w.channels[channel];
               && after.w == w.(channels := w.channels[channel := next]) && next == ch.(members := next.members)
               && |next.members| == |ch.members|
               && forall i :: 0 <= i < |ch.members| ==>
                    next.members[i] == if ch.members[i].address == Lower(address) then ch.members[i].(role := role.value)
                                       else ch.members[i])
  {
    if channel in w.channels {
      var ch := w.channels[channel];
      assert ChannelOk(ch);
      Found(ch, Lower(caller));
      Found(ch, Lower(address));
    }
  }

  // ---- Leaving and removing ----

  // Who inherits from a: an admin if one remains, else a member of the longest standing.
  predicate Inherits(ch: Channel, a: string, heir: string) {
    exists m :: m in ch.members && m.address == heir && heir != a
                && ((exists x :: x in ch.members && x.address != a && x.role == Admin) ==> m.role == Admin)
                && (!(exists x :: x in ch.members && x.address != a && x.role == Admin) ==>
                      forall x :: x in ch.members && x.address != a ==> m.joinedAt <= x.joinedAt)
  }

  // Of several that could inherit, the one listed first.
  ghost predicate FirstInLine(remaining: seq<Member>, i: int) {
    && 0 <= i < |remaining|
    && (if exists x :: x in remaining && x.role == Admin
        then remaining[i].role == Admin && forall j :: 0 <= j < i ==> remaining[j].role != Admin
        else (forall j :: 0 <= j < |remaining| ==> remaining[i].joinedAt <= remaining[j].joinedAt)
             && forall j :: 0 <= j < i ==> remaining[i].joinedAt < remaining[j].joinedAt)
  }

  lemma {:induction false} FirstAdminFirst(ms: seq<Member>) returns (i: nat)
    requires FirstAdmin(ms).Some?
    ensures i < |ms| && FirstAdmin(ms) == Some(ms[i]) && forall j :: 0 <= j < i ==> ms[j].role != Admin
  {
    if ms[0].role == Admin {
      i := 0;
    } else {
      var later := FirstAdminFirst(ms[1..]);
      i := later + 1;
      assert forall j :: 1 <= j < |ms| ==> ms[1..][j - 1] == ms[j];
    }
  }

  lemma {:induction false} EarliestFirst(ms: seq<Member>) returns (i: nat)
    requires ms != []
    ensures i < |ms| && Earliest(ms) == ms[i] && forall j :: 0 <= j < i ==> ms[i].joinedAt < ms[j].joinedAt
  {
    i := 0;
    if |ms| > 1 {
      var later := EarliestFirst(ms[1..]);
      assert forall j :: 1 <= j < |ms| ==> ms[1..][j - 1] == ms[j];
      if ms[0].joinedAt > ms[1..][later].joinedAt { i := later + 1; }
    }
  }

  lemma HeirIsFirst(remaining: seq<Member>) returns (i: nat)
    requires remaining != []
    ensures FirstInLine(remaining, i) && Successor(remaining) == remaining[i]
  {
    if FirstAdmin(remaining).Some? {
      i := FirstAdminFirst(remaining);
    } else {
      i := EarliestFirst(remaining);
      assert forall j :: 0 <= j < |remaining| ==> remaining[j] in remaining;
    }
  }

  // The channel without a: gone if nobody else was in it, else with every other row as
  // it was, and the heir's as the owner's if a was the owner.
  ghost predicate Without(ch: Channel, a: string, next: Option<Channel>) {
    if forall m :: m in ch.members ==> m.address == a then next == None
    else
      && next.Some? && |next.value.members| == |ch.members| - 1
      && (if ch.owner == a then Inherits(ch, a, next.value.owner) else next.value.owner == ch.owner)
      && forall m :: m in next.value.members <==>
           exists x :: x in ch.members && x.address != a && m == if x.address == next.value.owner then x.(role := Owner) else x
  }

  lemma {:induction false} OthersCount(ms: seq<Member>, a: string)
    requires OneRowEach(ms)
    ensures |Filter(Others(a), ms)| == if exists m :: m in ms && m.address == a then |ms| - 1 else |ms|
  {
    if ms != [] {
      OthersCount(ms[1..], a);
      assert forall m :: m in ms <==> m == ms[0] || m in ms[1..];
      assert forall m :: m in ms[1..] ==> m.address != ms[0].address;
    }
  }

  lemma MappedRow(ms: seq<Member>, address: string, role: Role, x: Member)
    requires x in ms
    ensures WithRole(address, role)(x) in Map(WithRole(address, role), ms)
  {
    var i :| 0 <= i < |ms| && ms[i] == x;
    assert Map(WithRole(address, role), ms)[i] == WithRole(address, role)(x);
  }

  lemma PromotedRow(ms: seq<Member>, a: string, heir: string, m: Member)
    ensures m in Filter(Others(a), Map(WithRole(heir, Owner), ms)) <==>
            exists x :: x in ms && x.address != a && m == if x.address == heir then x.(role := Owner) else x
  {
    var promoted := Map(WithRole(heir, Owner), ms);
    if m in promoted {
      var i :| 0 <= i < |ms| && promoted[i] == m;
      assert ms[i] in ms && m == if ms[i].address == heir then ms[i].(role := Owner) else ms[i];
    }
    if exists x :: x in ms && x.address != a && m == if x.address == heir then x.(role := Owner) else x {
      var x :| x in ms && x.address != a && m == if x.address == heir then x.(role := Owner) else x;
      MappedRow(ms, heir, Owner, x);
    }
  }

  lemma PromotedCount(ms: seq<Member>, a: string, heir: string)
    requires OneRowEach(ms) && exists m :: m in ms && m.address == a
    ensures |Filter(Others(a), Map(WithRole(heir, Owner), ms))| == |ms| - 1
  {
    var promoted := Map(WithRole(heir, Owner), ms);
    RoleKeepsRows(ms, heir, Owner);
    OthersCount(promoted, a);
    var gone :| gone in ms && gone.address == a;
    MappedRow(ms, heir, Owner, gone);
  }

  lemma HeirInherits(ch: Channel, a: string)
    requires Filter(Others(a), ch.members) != []
    ensures Inherits(ch, a, Successor(Filter(Others(a), ch.members)).address)
  {
    var heir := Successor(Filter(Others(a), ch.members));
    assert heir in ch.members && heir.address != a;
  }

  lemma SomeoneElse(ms: seq<Member>, a: string)
    requires Filter(Others(a), ms) != []
    ensures !(forall m :: m in ms ==> m.address == a)
  {
    assert Filter(Others(a), ms)[0] in Filter(Others(a), ms);
  }

  lemma OwnerDepart(ch: Channel, a: string)
    requires ChannelOk(ch) && a == ch.owner && IsIn(ch, a) && Filter(Others(a), ch.members) != []
    ensures var heir := Successor(Filter(Others(a), ch.members)).address;
            Depart(ch, a) == Some(Channel(heir, Filter(Others(a), Map(WithRole(heir, Owner), ch.members))))
  {
    Found(ch, a);
  }

  lemma OwnerDeparts(ch: Channel, a: string)
    requires ChannelOk(ch) && a == ch.owner && IsIn(ch, a) && Filter(Others(a), ch.members) != []
    ensures Without(ch, a, Depart(ch, a))
  {
    var heir := Successor(Filter(Others(a), ch.members)).address;
    OwnerDepart(ch, a);
    PromotedCount(ch.members, a, heir);
    HeirInherits(ch, a);
    forall m { PromotedRow(ch.members, a, heir, m); }
    SomeoneElse(ch.members, a);
  }

  lemma OtherDeparts(ch: Channel, a: string)
    requires ChannelOk(ch) && a != ch.owner && IsIn(ch, a)
    ensures Without(ch, a, Depart(ch, a))
  {
    Found(ch, a);
    Found(ch, ch.owner);
    OthersCount(ch.members, a);
    var next := Depart(ch, a).value;
    assert next.members == Filter(Others(a), ch.members) && next.owner == ch.owner;
    forall m ensures m in next.members <==>
      exists x :: x in ch.members && x.address != a && m == if x.address == ch.owner then x.(role := Owner) else x
    {
      forall x | x in ch.members && x.address == ch.owner ensures x == x.(role := Owner) {
      }
    }
  }

  lemma Departs(ch: Channel, a: string)
    requires ChannelOk(ch) && IsIn(ch, a)
    ensures Without(ch, a, Depart(ch, a))
  {
    Found(ch, a);
    if a != ch.owner {
      OtherDeparts(ch, a);
    } else if Filter(Others(a), ch.members) != [] {
      OwnerDeparts(ch, a);
    } else {
      forall m | m in ch.members ensures m.address == a {
        assert m.address != a ==> m in Filter(Others(a), ch.members);
      }
    }
  }

  function RemoveStatus(w: World, caller: string, channel: string, address: string): nat {
    if channel !in w.channels then 404
    else
      var ch, me, a := w.channels[channel], Lower(caller), Lower(address);
      if !IsIn(ch, me) then 403
      else if !IsIn(ch, a) then 404
      else if me == a || Holds(ch, me, Owner) || (Holds(ch, me, Admin) && Holds(ch, a, Plain)) then 200 else 403
  }

  lemma RemoveDecided(w: World, caller: string, channel: string, address: string)
    requires AllOk(w)
    ensures var after := DoRemove(w, caller, channel, address);
      && after.status == RemoveStatus(w, caller, channel, address)
      && after.w == if after.status != 200 then w
                    else w.(channels := Put(w.channels, channel, Depart(w.channels[channel], Lower(address))))
  {
    if channel in w.channels {
      assert ChannelOk(w.channels[channel]);
      Found(w.channels[channel], Lower(caller));
      Found(w.channels[channel], Lower(address));
    }
  }

  // Anyone leaves, the owner removes anyone, an admin removes plain members.
  lemma MemberRemoved(w: World, caller: string, channel: string, address: string)
    requires AllOk(w)
    ensures var after := DoRemove(w, caller, channel, address);
      && after.status == RemoveStatus(w, caller, channel, address)
      && (after.status != 200 ==> after.w == w)
      && (after.status == 200 ==>
            var next := if channel in after.w.channels then Some(after.w.channels[channel]) else None;
            && Without(w.channels[channel], Lower(address), next)
            && after.w == w.(channels := Put(w.channels, channel, next)))
  {
    RemoveDecided(w, caller, channel, address);
    if RemoveStatus(w, caller, channel, address) == 200 { Departs(w.channels[channel], Lower(address)); }
  }

  // Leaving every group is leaving each one the address is in, and touches no other.
  lemma AllLeft(w: World, address: string, c: string)
    requires AllOk(w) && c in w.channels
    ensures var after := LeaveEach(w, address);
      && (if IsIn(w.channels[c], address) then
            Without(w.channels[c], address, if c in after.channels then Some(after.channels[c]) else None)
          else c in after.channels && after.channels[c] == w.channels[c])
      && after.channels.Keys <= w.channels.Keys && after.users == w.users && after.capable == w.capable
  {
    var ch := w.channels[c];
    assert ChannelOk(ch);
    Found(ch, address);
    if IsIn(ch, address) { Departs(ch, address); }
  }

  // ---- Who can bring a member in or take one out ----

  predicate InChannel(w: World, c: string, a: string) { c in w.channels && IsIn(w.channels[c], a) }

  // Main result: an address comes into a channel only by being named when it is created,
  // or by being added by its owner or an admin.
  lemma MembersComeByInvitation(w: World, rq: Request, c: string, a: string)
    requires AllOk(w) && Enabled(w, rq) && InChannel(Handle(w, rq).w, c, a) && !InChannel(w, c, a)
    ensures || (rq.Create? && rq.id == c && a in Named(rq.caller, rq.addresses))
            || (rq.Add? && rq.channel == c && a == Lower(rq.address) && c in w.channels && Administers(w.channels[c], rq.caller))
  {
    match rq
    case Create(caller, addresses, id, at) =>
      if id == c { CreatedMembers(w, caller, addresses, id, at, a); }
    case Add(caller, channel, address, at) => AddedMember(w, caller, channel, address, at, c, a);
    case Remove(caller, channel, address) => NobodyComes(w, caller, channel, address, c, a);
    case SetRole(caller, channel, address, role) => SameMembers(w, caller, channel, address, role, c, a);
    case LeaveAll(address) => NobodyLeftComes(w, address, c, a);
    case Accounts(_, _) =>
  }

  lemma AddedMember(w: World, caller: string, channel: string, address: string, at: int, c: string, a: string)
    requires AllOk(w) && InChannel(DoAdd(w, caller, channel, address, at).w, c, a) && !InChannel(w, c, a)
    ensures channel == c && a == Lower(address) && c in w.channels && Administers(w.channels[c], Lower(caller))
  {
    MemberAdded(w, caller, channel, address, at);
  }

  lemma NobodyLeftComes(w: World, address: string, c: string, a: string)
    requires AllOk(w) && InChannel(LeaveEach(w, address), c, a)
    ensures InChannel(w, c, a)
  {
    AllLeft(w, address, c);
    if IsIn(w.channels[c], address) { WasIn(w.channels[c], address, LeaveEach(w, address).channels[c], a); }
  }

  // Nobody comes into a channel because somebody leaves it.
  lemma WasIn(ch: Channel, a: string, next: Channel, b: string)
    requires Without(ch, a, Some(next)) && IsIn(next, b)
    ensures IsIn(ch, b)
  {
    var m :| m in next.members && m.address == b;
    var x :| x in ch.members && x.address != a && m == if x.address == next.owner then x.(role := Owner) else x;
  }

  lemma CreatedMembers(w: World, caller: string, addresses: seq<string>, id: string, at: int, a: string)
    requires DoCreate(w, caller, addresses, id, at).status == 200 && InChannel(DoCreate(w, caller, addresses, id, at).w, id, a)
    ensures a in Named(caller, addresses)
  {
    var who := MembersToBe(caller, addresses);
    var rows := NewMembers(caller, who, at);
    NamedAreMembers(caller, addresses);
    var m :| m in rows && m.address == a;
    var i :| 0 <= i < |rows| && rows[i] == m;
    assert who[i] in who;
  }

  lemma NobodyComes(w: World, caller: string, channel: string, address: string, c: string, a: string)
    requires AllOk(w) && InChannel(DoRemove(w, caller, channel, address).w, c, a)
    ensures InChannel(w, c, a)
  {
    MemberRemoved(w, caller, channel, address);
    var after := DoRemove(w, caller, channel, address);
    if after.status == 200 && c == channel { WasIn(w.channels[c], Lower(address), after.w.channels[c], a); }
  }

  lemma SameMembers(w: World, caller: string, channel: string, address: string, role: Option<Role>, c: string, a: string)
    requires AllOk(w)
    ensures InChannel(DoSetRole(w, caller, channel, address, role).w, c, a) <==> InChannel(w, c, a)
  {
    RoleChanged(w, caller, channel, address, role);
    var after := DoSetRole(w, caller, channel, address, role);
    if after.status == 200 && c == channel {
      var ch, next := w.channels[c], after.w.channels[c];
      if IsIn(next, a) {
        var i :| 0 <= i < |next.members| && next.members[i].address == a;
        assert ch.members[i] in ch.members;
      }
      if IsIn(ch, a) {
        var i :| 0 <= i < |ch.members| && ch.members[i].address == a;
        assert next.members[i] in next.members;
      }
    }
  }

  // Main result: an address goes from a channel only by leaving it, by leaving every
  // group, or by being removed: by the owner, or as a plain member by an admin.
  lemma MembersGoByRight(w: World, rq: Request, c: string, a: string)
    requires AllOk(w) && Enabled(w, rq) && InChannel(w, c, a) && !InChannel(Handle(w, rq).w, c, a)
    ensures || (rq.LeaveAll? && rq.address == a)
            || (rq.Remove? && rq.channel == c && a == Lower(rq.address)
                && (rq.caller == a || Holds(w.channels[c], rq.caller, Owner)
                    || (Holds(w.channels[c], rq.caller, Admin) && Holds(w.channels[c], a, Plain))))
  {
    match rq
    case Create(caller, addresses, id, at) => GroupCreated(w, caller, addresses, id, at);
    case Add(caller, channel, address, at) => AddedStays(w, caller, channel, address, at, c, a);
    case Remove(caller, channel, address) => OthersStay(w, caller, channel, address, c, a);
    case SetRole(caller, channel, address, role) => SameMembers(w, caller, channel, address, role, c, a);
    case LeaveAll(address) => if a != address { OthersKept(w, address, c, a); }
    case Accounts(_, _) =>
  }

  lemma AddedStays(w: World, caller: string, channel: string, address: string, at: int, c: string, a: string)
    requires AllOk(w) && InChannel(w, c, a)
    ensures InChannel(DoAdd(w, caller, channel, address, at).w, c, a)
  {
    MemberAdded(w, caller, channel, address, at);
  }

  lemma KeptIn(ch: Channel, a: string, next: Option<Channel>, b: string)
    requires Without(ch, a, next) && IsIn(ch, b) && b != a
    ensures next.Some? && IsIn(next.value, b)
  {
    var x :| x in ch.members && x.address == b;
    var m := if x.address == next.value.owner then x.(role := Owner) else x;
    assert m in next.value.members && m.address == b;
  }

  lemma OthersStay(w: World, caller: string, channel: string, address: string, c: string, a: string)
    requires AllOk(w) && InChannel(w, c, a) && !InChannel(DoRemove(w, caller, channel, address).w, c, a)
    ensures channel == c && a == Lower(address) && RemoveStatus(w, caller, channel, address) == 200
  {
    MemberRemoved(w, caller, channel, address);
    var after := DoRemove(w, caller, channel, address);
    if after.status == 200 && c == channel && a != Lower(address) {
      KeptIn(w.channels[c], Lower(address), if c in after.w.channels then Some(after.w.channels[c]) else None, a);
    }
  }

  lemma OthersKept(w: World, address: string, c: string, a: string)
    requires AllOk(w) && InChannel(w, c, a) && a != address
    ensures InChannel(LeaveEach(w, address), c, a)
  {
    var after := LeaveEach(w, address);
    AllLeft(w, address, c);
    if IsIn(w.channels[c], address) {
      KeptIn(w.channels[c], address, if c in after.channels then Some(after.channels[c]) else None, a);
    }
  }
}
