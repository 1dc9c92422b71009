/**
Wrapped keys and the key they name: which are stale after a rotation, how the
server pages them, and how a client walks the pages while re-wrapping them.
*/
module Wraps {
  import opened Text
  import opened CanonicalJson
  import opened SignedBodies
  import opened Base64
  import opened Lists
  import opened Pages

  const FORMAT_VERSION := 5
  const KEM_ENVELOPE_ALG := KEM_ALG + "-A256GCM"
  const KEM_BYTES := 97 + 1088
  const IV_BYTES := 12
  const WRAPPED_SESSION_KEY_BYTES := 32 + 16

  // `json.loads`: None where it raises, and it raises on the empty text.
  type Loads = string -> Option<Json>

  predicate Parses(loads: Loads) { loads("").None? }

  function Field(ms: Members, key: string): Option<Json> {
    match ms
    case NoMembers => None
    case Member(k, v, rest) => if k == key then Some(v) else Field(rest, key)
  }

  predicate Base64Of(v: Option<Json>, bytes: nat -> bool) {
    v.Some? && v.value.Str? && IsB64(v.value.s) && bytes(|Decode(v.value.s).value|)
  }

  function Exactly(n: nat): nat -> bool { (m: nat) => m == n }

  function MoreThan(n: nat): nat -> bool { (m: nat) => m > n }

  const ENVELOPE_FIELDS: set<string> := {"v", "alg", "kid", "kem", "iv"}

  // `is_wrapped_key_for`
  predicate IsWrappedKeyFor(loads: Loads, value: string, kid: string) {
    && IsValidKeyId(kid)
    && loads(value).Some? && loads(value).value.Obj?
    && var ms := loads(value).value.members;
       && ENVELOPE_FIELDS <= ms.Keys()
       && ms.Keys() - ENVELOPE_FIELDS in {{"encKey"}, {"content"}}
       && Field(ms, "v") == Some(Num(FORMAT_VERSION))
       && Field(ms, "alg") == Some(Str(KEM_ENVELOPE_ALG))
       && Field(ms, "kid") == Some(Str(kid))
       && Base64Of(Field(ms, "kem"), Exactly(KEM_BYTES))
       && Base64Of(Field(ms, "iv"), Exactly(IV_BYTES))
       && (if "encKey" in ms.Keys() then Base64Of(Field(ms, "encKey"), Exactly(WRAPPED_SESSION_KEY_BYTES))
           else Base64Of(Field(ms, "content"), MoreThan(16)))
  }

  // `wrapped_key_id`
  function WrappedKeyId(loads: Loads, value: Option<string>): Option<string> {
    if value.None? then None
    else
      match loads(value.value)
      case Some(Obj(ms)) =>
        (match Field(ms, "kid")
         case Some(Str(kid)) => if IsValidKeyId(kid) then Some(kid) else None
         case _ => None)
      case _ => None
  }

  // A wrap accepted for a key names that key, and no other.
  lemma AcceptedWrapNamesItsKey(loads: Loads, value: string, kid: string)
    requires Parses(loads) && IsWrappedKeyFor(loads, value, kid)
    ensures WrappedKeyId(loads, Some(value)) == Some(kid) && value != ""
    ensures forall other :: IsWrappedKeyFor(loads, value, other) ==> other == kid
  {
  }

  // ---- The list of held wraps ----

  datatype WrapKind = GrantWrap | SignerWrap | RecipientWrap

  datatype Held = Held(kind: WrapKind, id: nat, wrap: string)

  datatype Rewrapped = Rewrapped(kind: WrapKind, id: nat, wrap: string)

  function IsStale(loads: Loads, kid: Option<string>): Held -> bool {
    (h: Held) => WrappedKeyId(loads, Some(h.wrap)) != kid
  }

  predicate OneRowEach(held: seq<Held>) {
    forall i, j :: 0 <= i < j < |held| ==> held[i].kind != held[j].kind || held[i].id != held[j].id
  }

  function StaleOf(loads: Loads, kid: Option<string>, held: seq<Held>): seq<Held> { Filter(IsStale(loads, kid), held) }

  // `stale_wraps`
  method StaleWraps(loads: Loads, kid: Option<string>, held: seq<Held>, limit: nat, offset: nat) returns (out: seq<Held>)
    requires limit >= 1
    ensures out == Window(StaleOf(loads, kid, held), offset, limit)
  {
    out := StreamPage(IsStale(loads, kid), held, limit, offset);
  }

  // ---- Re-wrapping a batch ----

  predicate HoldsRow(held: seq<Held>, item: Rewrapped) {
    exists h :: h in held && h.kind == item.kind && h.id == item.id
  }

  predicate Acceptable(loads: Loads, held: seq<Held>, kid: Option<string>, items: seq<Rewrapped>) {
    forall i :: 0 <= i < |items| ==>
      HoldsRow(held, items[i]) && kid.Some? && IsWrappedKeyFor(loads, items[i].wrap, kid.value)
  }

  // How one item is answered: 404 for a row the caller does not hold, 400 for a
  // wrap that does not name the current key.
  function Fault(loads: Loads, held: seq<Held>, kid: Option<string>): Rewrapped -> nat {
    (item: Rewrapped) =>
      if !HoldsRow(held, item) then 404
      else if !(kid.Some? && IsWrappedKeyFor(loads, item.wrap, kid.value)) then 400
      else 200
  }

  // The first fault answers the batch.
  function FirstFault(fault: Rewrapped -> nat, items: seq<Rewrapped>): (status: nat)
    ensures status == 200 <==> forall i :: 0 <= i < |items| ==> fault(items[i]) == 200
  {
    if items == [] then 200
    else if fault(items[0]) != 200 then fault(items[0])
    else
      assert forall i :: 1 <= i < |items| ==> items[i] == items[1..][i - 1];
      FirstFault(fault, items[1..])
  }

  lemma FaultlessIsAcceptable(loads: Loads, held: seq<Held>, kid: Option<string>, items: seq<Rewrapped>)
    ensures FirstFault(Fault(loads, held, kid), items) == 200 <==> Acceptable(loads, held, kid, items)
  {
    forall i | 0 <= i < |items|
      ensures Fault(loads, held, kid)(items[i]) == 200
         <==> HoldsRow(held, items[i]) && kid.Some? && IsWrappedKeyFor(loads, items[i].wrap, kid.value)
    {
    }
  }

  // The wrap a batch gives a row: the last one naming it.
  function NewWrap(items: seq<Rewrapped>, kind: WrapKind, id: nat): (w: Option<string>)
    ensures w.Some? ==> Rewrapped(kind, id, w.value) in items
  {
    if items == [] then None
    else
      var later := NewWrap(items[1..], kind, id);
      if later.Some? then later
      else if items[0].kind == kind && items[0].id == id then Some(items[0].wrap) else None
  }

  function Reseal(items: seq<Rewrapped>): Held -> Held {
    (h: Held) => h.(wrap := NewWrap(items, h.kind, h.id).GetOr(h.wrap))
  }

  function Unnamed(items: seq<Rewrapped>): Held -> bool { (h: Held) => NewWrap(items, h.kind, h.id).None? }

  // ---- One batch against the list ----

  function StaleUnnamed(loads: Loads, kid: Option<string>, items: seq<Rewrapped>): Held -> bool {
    (h: Held) => IsStale(loads, kid)(h) && Unnamed(items)(h)
  }

  // An accepted batch takes exactly the rows it names off the stale list.
  lemma StaleAfterRewrap(loads: Loads, kid: Option<string>, held: seq<Held>, items: seq<Rewrapped>)
    requires Parses(loads) && Acceptable(loads, held, kid, items)
    ensures StaleOf(loads, kid, Map(Reseal(items), held)) == Filter(Unnamed(items), StaleOf(loads, kid, held))
  {
    var after := Map(Reseal(items), held);
    forall i | 0 <= i < |held|
      ensures IsStale(loads, kid)(after[i]) == StaleUnnamed(loads, kid, items)(held[i])
      ensures StaleUnnamed(loads, kid, items)(held[i]) ==> after[i] == held[i]
    {
    }
    FilterThrough(IsStale(loads, kid), StaleUnnamed(loads, kid, items), held, after);
    FilterTwice(Unnamed(items), IsStale(loads, kid), StaleUnnamed(loads, kid, items), held);
  }

  // ---- The client's walk ----

  const PAGE: nat := 100

  // What a client makes of a row it is handed: the same key sealed to the current
  // one, or nothing where it cannot open the old wrap.
  type Opener = Held -> Option<string>

  ghost predicate Seals(loads: Loads, kid: Option<string>, open: Opener) {
    forall h :: open(h).Some? ==> kid.Some? && IsWrappedKeyFor(loads, open(h).value, kid.value)
  }

  function Unreadable(open: Opener): Held -> bool { (h: Held) => open(h).None? }

  function ItemsFor(open: Opener, page: seq<Held>): seq<Rewrapped> {
    if page == [] then []
    else
      (if open(page[0]).Some? then [Rewrapped(page[0].kind, page[0].id, open(page[0]).value)] else [])
        + ItemsFor(open, page[1..])
  }

  predicate SameRow(g: Held, h: Held) { g.kind == h.kind && g.id == h.id }

  predicate OpensRow(open: Opener, page: seq<Held>, h: Held) {
    exists g :: g in page && SameRow(g, h) && open(g).Some?
  }

  lemma NewWrapAppend(item: Rewrapped, rest: seq<Rewrapped>, h: Held)
    ensures NewWrap([item] + rest, h.kind, h.id).Some?
       <==> (item.kind == h.kind && item.id == h.id) || NewWrap(rest, h.kind, h.id).Some?
  {
    assert ([item] + rest)[1..] == rest;
  }

  // A batch names exactly the rows of its page that opened.
  lemma {:induction false} ItemsName(open: Opener, page: seq<Held>, h: Held)
    ensures NewWrap(ItemsFor(open, page), h.kind, h.id).Some? <==> OpensRow(open, page, h)
  {
    if page != [] {
      var rest := ItemsFor(open, page[1..]);
      ItemsName(open, page[1..], h);
      if open(page[0]).Some? {
        NewWrapAppend(Rewrapped(page[0].kind, page[0].id, open(page[0]).value), rest, h);
      } else {
        assert [] + rest == rest;
      }
    }
  }

  // Every item of a batch is a row of its page, resealed.
  lemma {:induction false} ItemsFrom(open: Opener, page: seq<Held>, item: Rewrapped) returns (h: Held)
    requires item in ItemsFor(open, page)
    ensures h in page && open(h) == Some(item.wrap) && h.kind == item.kind && h.id == item.id
  {
    if open(page[0]).Some? && item == Rewrapped(page[0].kind, page[0].id, open(page[0]).value) {
      h := page[0];
    } else {
      h := ItemsFrom(open, page[1..], item);
    }
  }

  lemma {:induction false} FilterOneRowEach(p: Held -> bool, held: seq<Held>)
    requires OneRowEach(held)
    ensures OneRowEach(Filter(p, held))
  {
    if held != [] {
      FilterOneRowEach(p, held[1..]);
      var tail := Filter(p, held[1..]);
      forall j | 0 <= j < |tail| ensures tail[j].kind != held[0].kind || tail[j].id != held[0].id {
        assert tail[j] in held[1..];
      }
    }
  }

  // A page of a list that names each row once, with what stands before and after it.
  lemma PageApart(before: seq<Held>, page: seq<Held>, after: seq<Held>)
    requires OneRowEach(before + page + after)
    ensures forall g, h :: g in page && (h in before || h in after) ==> !SameRow(g, h)
    ensures forall g, h :: g in page && h in page && SameRow(g, h) ==> g == h
  {
    var all := before + page + after;
    assert forall i :: 0 <= i < |before| ==> all[i] == before[i];
    assert forall i :: 0 <= i < |page| ==> all[|before| + i] == page[i];
    assert forall i :: 0 <= i < |after| ==> all[|before| + |page| + i] == after[i];
  }

  // The rows a page's own batch leaves alone: those elsewhere, and those on it
  // that the client cannot open.
  lemma PageUnnamed(open: Opener, page: seq<Held>, h: Held)
    requires forall g :: g in page && SameRow(g, h) ==> g == h
    ensures Unnamed(ItemsFor(open, page))(h) <==> !(h in page && open(h).Some?)
  {
    ItemsName(open, page, h);
    if h in page && open(h).Some? {
      assert SameRow(h, h);
    }
  }

  lemma PageAcceptable(loads: Loads, kid: Option<string>, open: Opener, held: seq<Held>, page: seq<Held>)
    requires Seals(loads, kid, open) && forall h :: h in page ==> h in held
    ensures Acceptable(loads, held, kid, ItemsFor(open, page))
  {
    var items := ItemsFor(open, page);
    forall i | 0 <= i < |items|
      ensures HoldsRow(held, items[i]) && kid.Some? && IsWrappedKeyFor(loads, items[i].wrap, kid.value)
    {
      var h := ItemsFrom(open, page, items[i]);
      assert open(h).Some?;
    }
  }

  lemma FilterPage(open: Opener, before: seq<Held>, page: seq<Held>, after: seq<Held>)
    requires OneRowEach(before + page + after)
    ensures Filter(Unnamed(ItemsFor(open, page)), before + page + after)
         == before + Filter(Unreadable(open), page) + after
  {
    PageApart(before, page, after);
    forall h | h in before || h in page || h in after
      ensures Unnamed(ItemsFor(open, page))(h) <==> !(h in page && open(h).Some?)
    {
      PageUnnamed(open, page, h);
    }
    forall h | h in before || h in after ensures h !in page {
      assert SameRow(h, h);
    }
    FilterMiddle(Unnamed(ItemsFor(open, page)), Unreadable(open), before, page, after);
  }

  // One page and its batch: the rows that opened leave the list, in place.
  lemma StaleAfterPage(loads: Loads, kid: Option<string>, open: Opener, held: seq<Held>,
                       before: seq<Held>, page: seq<Held>, after: seq<Held>)
    requires Parses(loads) && Seals(loads, kid, open) && OneRowEach(held)
    requires StaleOf(loads, kid, held) == before + page + after
    ensures StaleOf(loads, kid, Map(Reseal(ItemsFor(open, page)), held))
         == before + Filter(Unreadable(open), page) + after
  {
    forall h | h in page ensures h in held {
      assert h in before + page + after;
    }
    PageAcceptable(loads, kid, open, held, page);
    StaleAfterRewrap(loads, kid, held, ItemsFor(open, page));
    FilterOneRowEach(IsStale(loads, kid), held);
    FilterPage(open, before, page, after);
  }

  function FirstPage(todo: seq<Held>): seq<Held> { todo[..Min(PAGE, |todo|)] }

  function AfterPage(todo: seq<Held>): seq<Held> { todo[Min(PAGE, |todo|)..] }

  // Asking from past the rows left unreadable hands out the first unseen ones.
  lemma PageFromOffset(unreadable: seq<Held>, todo: seq<Held>)
    ensures Window(unreadable + todo, |unreadable|, PAGE) == FirstPage(todo)
    ensures unreadable + todo == unreadable + FirstPage(todo) + AfterPage(todo)
  {
    assert todo == FirstPage(todo) + AfterPage(todo);
  }

  lemma {:induction false} CountItems(open: Opener, page: seq<Held>)
    ensures |ItemsFor(open, page)| + |Filter(Unreadable(open), page)| == |page|
  {
    if page != [] {
      CountItems(open, page[1..]);
    }
  }

  // The whole list is unreadable rows and rows still to see.
  predicate Remaining(loads: Loads, kid: Option<string>, held: seq<Held>, unreadable: seq<Held>, todo: seq<Held>) {
    OneRowEach(held) && StaleOf(loads, kid, held) == unreadable + todo
  }

  lemma RemainingNext(loads: Loads, kid: Option<string>, open: Opener, held: seq<Held>, unreadable: seq<Held>, todo: seq<Held>)
    requires Parses(loads) && Seals(loads, kid, open) && Remaining(loads, kid, held, unreadable, todo)
    ensures Remaining(loads, kid, Map(Reseal(ItemsFor(open, FirstPage(todo))), held),
                    unreadable + Filter(Unreadable(open), FirstPage(todo)), AfterPage(todo))
  {
    PageFromOffset(unreadable, todo);
    StaleAfterPage(loads, kid, open, held, unreadable, FirstPage(todo), AfterPage(todo));
  }

  // What the walk has seen and what it has left.
  ghost predicate Progress(open: Opener, stale: seq<Held>, visited: seq<Held>, unreadable: seq<Held>, todo: seq<Held>) {
    stale == visited + todo && unreadable == Filter(Unreadable(open), visited)
  }

  lemma ProgressNext(open: Opener, stale: seq<Held>, visited: seq<Held>, unreadable: seq<Held>, todo: seq<Held>)
    requires Progress(open, stale, visited, unreadable, todo)
    ensures Progress(open, stale, visited + FirstPage(todo),
                     unreadable + Filter(Unreadable(open), FirstPage(todo)), AfterPage(todo))
  {
    assert todo == FirstPage(todo) + AfterPage(todo);
    FilterAppend(Unreadable(open), visited, FirstPage(todo));
  }

  // Main result: the client's walk. It asks from past the rows it found
  // unreadable, re-wraps what opens, and stops at an empty page or a short one
  // with nothing to send. However its openings fall it ends, is handed each stale
  // wrap exactly once and in order, and leaves stale exactly those it could not
  // open.
  method RewrapStaleKeys(loads: Loads, kid: Option<string>, open: Opener, start: seq<Held>)
    returns (visited: seq<Held>, held: seq<Held>, rewrapped: nat, unreadable: nat)
    requires Parses(loads) && Seals(loads, kid, open) && OneRowEach(start)
    ensures visited == StaleOf(loads, kid, start)
    ensures StaleOf(loads, kid, held) == Filter(Unreadable(open), visited)
    ensures unreadable == |StaleOf(loads, kid, held)| && rewrapped + unreadable == |visited|
  {
    ghost var stale := StaleOf(loads, kid, start);
    ghost var passed, todo := [], stale;
    visited, held, rewrapped, unreadable := [], start, 0, 0;
    var more := true;
    while more
      invariant Remaining(loads, kid, held, passed, todo)
      invariant Progress(open, stale, visited, passed, todo)
      invariant unreadable == |passed| && rewrapped + unreadable == |visited|
      invariant !more ==> todo == []
      decreases |todo|, more
    {
      PageFromOffset(passed, todo);
      var page := StaleWraps(loads, kid, held, PAGE, unreadable);
      if page == [] {
        more := false;
      } else {
        RemainingNext(loads, kid, open, held, passed, todo);
        ProgressNext(open, stale, visited, passed, todo);
        CountItems(open, page);
        var items := ItemsFor(open, page);
        held := Map(Reseal(items), held);
        visited, rewrapped, unreadable := visited + page, rewrapped + |items|, unreadable + (|page| - |items|);
        passed, todo := passed + Filter(Unreadable(open), page), AfterPage(todo);
        if |page| < PAGE && items == [] { more := false; }
      }
    }
    assert visited + [] == visited && passed + [] == passed;
  }
}
