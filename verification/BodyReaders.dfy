/**
Signed bodies read back. The reader works on plain text: a line ends at a line break
that does not begin another, a field is what follows its label and '=' on the first
line that starts so. It knows the labels of no body, and every argument of every
builder is found under the label the two languages agreed on.
*/
module BodyReaders {
  import opened Text
  import opened CanonicalJson
  import opened SignedBodies

  // ---- The reader ----

  // Where the first line ends: a value may hold one line break at its very end.
  function LineEnd(s: string): (k: nat)
    ensures k <= |s|
  {
    if |s| < 2 then |s| else if s[0] == '\n' && s[1] != '\n' then 0 else 1 + LineEnd(s[1..])
  }

  function FirstLine(s: string): string { s[..LineEnd(s)] }

  function NextLines(s: string): string {
    if LineEnd(s) == |s| then "" else s[LineEnd(s) + 1..]
  }

  predicate HasLabel(line: string, tag: string) { tag + "=" <= line }

  // The value under a label, and the text after its line.
  function Field(s: string, tag: string): Option<string>
    decreases |s|
  {
    if s == "" then None
    else if HasLabel(FirstLine(s), tag) then Some(FirstLine(s)[|tag| + 1..])
    else Field(NextLines(s), tag)
  }

  function After(s: string, tag: string): Option<string>
    decreases |s|
  {
    if s == "" then None
    else if HasLabel(FirstLine(s), tag) then Some(NextLines(s))
    else After(NextLines(s), tag)
  }

  // What each line is called: the text before its first '='.
  function NameOf(line: string): string { line[..IndexOf(line, '=')] }

  function Names(s: string): (ns: seq<string>)
    decreases |s|
  {
    if s == "" then [] else [NameOf(FirstLine(s))] + Names(NextLines(s))
  }

  // A whole number in plain decimal digits.
  predicate Spells(s: Option<string>, n: int) {
    && s.Some?
    && (if n < 0 then s.value != "" && s.value[0] == '-' && Plain(s.value[1..]) && NatValue(s.value[1..]) == -n
        else Plain(s.value) && NatValue(s.value) == n)
  }

  // ---- Reading lines that were joined ----

  lemma {:induction false} LineEndOf(v: string, r: string)
    requires ProperLine(v) && Continues(r)
    ensures LineEnd(v + ("\n" + r)) == |v|
  {
    var s := v + ("\n" + r);
    if |v| == 1 {
      assert s[1] == '\n' && s[2] == r[0];
      assert s[1..] == "\n" + r && s[1..][1..] == r;
      assert s[0] == v[0];
    } else {
      assert s[0] == v[0];
      LineEndInside(v[1..], r);
      assert s[1..] == v[1..] + ("\n" + r);
    }
  }

  // The same for what remains of a line once its first characters are read.
  lemma {:induction false} LineEndInside(v: string, r: string)
    requires v != "" && NewlineFree(v[..|v| - 1]) && Continues(r)
    ensures LineEnd(v + ("\n" + r)) == |v|
  {
    var s := v + ("\n" + r);
    assert s[|v|] == '\n' && s[|v| + 1] == r[0];
    if |v| == 1 {
      assert s[1..] == "\n" + r;
      assert s[0] == v[0] && s[1] == '\n';
      LineEndHere(r);
    } else {
      assert v[0] == v[..|v| - 1][0];
      assert s[0] == v[0];
      assert v[1..][..|v| - 2] == v[..|v| - 1][1..];
      LineEndInside(v[1..], r);
      assert s[1..] == v[1..] + ("\n" + r);
    }
  }

  lemma LineEndHere(r: string)
    requires Continues(r)
    ensures LineEnd("\n" + r) == 0
  {
    assert ("\n" + r)[1] == r[0];
  }

  predicate OneLine(s: string) { NewlineFree(s[..if s == "" then 0 else |s| - 1]) }

  // A text with no line end in it is one line.
  lemma {:induction false} LineEndAlone(v: string)
    requires OneLine(v)
    ensures LineEnd(v) == |v|
  {
    if |v| >= 2 {
      assert v[0] == v[..|v| - 1][0];
      assert v[1..][..|v| - 2] == v[..|v| - 1][1..];
      LineEndAlone(v[1..]);
    }
  }

  lemma LinesOf(v: string, r: string)
    requires ProperLine(v) && Continues(r)
    ensures FirstLine(v + ("\n" + r)) == v && NextLines(v + ("\n" + r)) == r
  {
    LineEndOf(v, r);
    var s := v + ("\n" + r);
    assert s[..|v|] == v && s[|v| + 1..] == r;
  }

  lemma NameOfLabelled(tag: string, value: string)
    requires '=' !in tag
    ensures NameOf(tag + "=" + value) == tag
    ensures HasLabel(tag + "=" + value, tag) && (tag + "=" + value)[|tag| + 1..] == value
  {
    var line := tag + "=" + value;
    var i := IndexOf(line, '=');
    assert line[|tag|] == '=' && line[..|tag|] == tag;
    assert line[..|tag| + 1] == tag + "=";
  }

  lemma NameOfLabel(line: string, tag: string)
    requires '=' !in tag && HasLabel(line, tag)
    ensures NameOf(line) == tag
  {
    assert line == tag + "=" + line[|tag| + 1..];
    NameOfLabelled(tag, line[|tag| + 1..]);
  }

  lemma NameOfPlain(line: string)
    requires '=' !in line
    ensures NameOf(line) == line
  {
  }

  // ---- Lines in order ----

  // The value of line k, and what follows the line.
  lemma {:induction false} ReadAt(ls: seq<string>, k: nat, tag: string, value: string)
    requires ProperLines(ls) && k < |ls| && ls[k] == tag + "=" + value && '=' !in tag
    requires forall i :: 0 <= i < k ==> NameOf(ls[i]) != tag
    requires k == |ls| - 1 ==> OneLine(ls[k])
    ensures Field(JoinLines(ls), tag) == Some(value)
    ensures After(JoinLines(ls), tag) == Some(if k == |ls| - 1 then "" else JoinLines(ls[k + 1..]))
  {
    if |ls| == 1 {
      ReadLast(tag, value);
    } else {
      assert ProperLine(ls[0]) && ProperLines(ls[1..]);
      JoinContinues(ls[1..]);
      LinesOf(ls[0], JoinLines(ls[1..]));
      if k == 0 {
        NameOfLabelled(tag, value);
      } else {
        if HasLabel(ls[0], tag) { NameOfLabel(ls[0], tag); }
        ReadAt(ls[1..], k - 1, tag, value);
        assert ls[1..][k..] == ls[k + 1..];
      }
    }
  }

  lemma ReadLast(tag: string, value: string)
    requires '=' !in tag && OneLine(tag + "=" + value)
    ensures Field(tag + "=" + value, tag) == Some(value) && After(tag + "=" + value, tag) == Some("")
  {
    var line := tag + "=" + value;
    LineEndAlone(line);
    NameOfLabelled(tag, value);
    assert FirstLine(line) == line;
  }

  lemma NameFirst(line: string, r: string)
    requires ProperLine(line) && Continues(r)
    ensures Names(line + ("\n" + r)) == [NameOf(line)] + Names(r)
  {
    LinesOf(line, r);
  }

  lemma Regroup(ns: seq<string>, t: seq<string>)
    requires ns != []
    ensures [ns[0]] + (ns[1..] + t) == ns + t
  {
  }

  // The lines of a text are called what they were called before they were joined; the
  // value of the last may hold line breaks.
  lemma {:induction false} NamesJoined(ls: seq<string>, ns: seq<string>)
    requires ProperLines(ls) && |ns| == |ls| - 1
    requires forall i :: 0 <= i < |ns| ==> NameOf(ls[i]) == ns[i]
    ensures Names(JoinLines(ls)) == ns + Names(ls[|ls| - 1])
  {
    if |ls| == 1 {
      assert ns == [];
    } else {
      assert ProperLine(ls[0]) && ProperLines(ls[1..]);
      JoinContinues(ls[1..]);
      NameFirst(ls[0], JoinLines(ls[1..]));
      NamesJoined(ls[1..], ns[1..]);
      Regroup(ns, Names(ls[|ls| - 1]));
    }
  }

  lemma NameOfLast(tag: string, value: string)
    requires '=' !in tag && OneLine(tag + "=" + value)
    ensures Names(tag + "=" + value) == [tag]
  {
    LineEndAlone(tag + "=" + value);
    NameOfLabelled(tag, value);
    assert FirstLine(tag + "=" + value) == tag + "=" + value;
  }

  // ---- The two lines every body begins with ----

  lemma PlainLine(line: string)
    requires Continues(line) && NewlineFree(line) && '=' !in line
    ensures ProperLine(line) && NameOf(line) == line
  {
    NameOfPlain(line);
  }

  lemma LabelledLine(tag: string, value: string)
    requires Continues(tag) && NewlineFree(tag) && '=' !in tag && LineValue(value)
    ensures ProperLine(tag + "=" + value) && NameOf(tag + "=" + value) == tag
  {
    LabelProper(tag + "=", value);
    NameOfLabelled(tag, value);
  }

  lemma HeaderLine()
    ensures ProperLine(DS_HEADER) && NameOf(DS_HEADER) == DS_HEADER
  {
    PlainLine(DS_HEADER);
  }

  lemma ContextLine(context: string)
    requires NewlineFree(context)
    ensures "context=" + context == "context" + "=" + context
    ensures ProperLine("context=" + context) && NameOf("context=" + context) == "context"
  {
    LabelledLine("context", context);
    assert "context" + "=" == "context=";
  }

  lemma SkipLine(line: string, r: string, tag: string)
    requires ProperLine(line) && Continues(r) && NameOf(line) != tag && '=' !in tag
    ensures Field(line + ("\n" + r), tag) == Field(r, tag) && After(line + ("\n" + r), tag) == After(r, tag)
  {
    LinesOf(line, r);
    if HasLabel(line, tag) { NameOfLabel(line, tag); }
  }

  // Reading the second line.
  lemma Second(h: string, tag: string, c: string, value: string, rest: string)
    requires ProperLine(h) && NameOf(h) != tag && '=' !in tag
    requires ProperLine(c) && c == tag + "=" + value && Continues(rest)
    ensures Field(h + ("\n" + (c + ("\n" + rest))), tag) == Some(value)
    ensures After(h + ("\n" + (c + ("\n" + rest))), tag) == Some(rest)
  {
    LinesOf(c, rest);
    NameOfLabelled(tag, value);
    SkipLine(h, c + ("\n" + rest), tag);
  }

  lemma ContextOf(context: string, rest: string)
    requires NewlineFree(context) && Continues(rest)
    ensures Field(DomainSeparate(context, rest), "context") == Some(context)
    ensures After(DomainSeparate(context, rest), "context") == Some(rest)
  {
    HeaderLine();
    ContextLine(context);
    Second(DS_HEADER, "context", "context=" + context, context, rest);
  }

  lemma NamesUnder(h: string, c: string, rest: string)
    requires ProperLine(h) && ProperLine(c) && Continues(rest)
    ensures Names(h + ("\n" + (c + ("\n" + rest)))) == [NameOf(h), NameOf(c)] + Names(rest)
  {
    NameFirst(h, c + ("\n" + rest));
    NameFirst(c, rest);
    Pair(NameOf(h), NameOf(c), Names(rest));
  }

  lemma Pair(a: string, b: string, c: seq<string>)
    ensures [a] + ([b] + c) == [a, b] + c
  {
  }

  lemma UnderHeader(context: string, rest: string, tag: string)
    requires NewlineFree(context) && Continues(rest)
    requires '=' !in tag && tag != DS_HEADER && tag != "context"
    ensures Field(DomainSeparate(context, rest), tag) == Field(rest, tag)
    ensures After(DomainSeparate(context, rest), tag) == After(rest, tag)
  {
    var second := ("context=" + context) + ("\n" + rest);
    HeaderLine();
    ContextLine(context);
    assert Continues(second);
    SkipLine(DS_HEADER, second, tag);
    SkipLine("context=" + context, rest, tag);
  }

  // ---- The lines of every body ----

  // Names of the lines of a body, apart from each other and from the two before them.
  predicate Apart(ns: seq<string>) { NoRepeats([DS_HEADER, "context"] + ns) }

  predicate Tags(ns: seq<string>) { Apart(ns) && forall i :: 0 <= i < |ns| ==> '=' !in ns[i] && NewlineFree(ns[i]) }

  // Lines called what they are called, of which line k is its name and a value.
  predicate Labelled(ls: seq<string>, ns: seq<string>, k: nat, value: string) {
    && k < |ns| <= |ls| && Tags(ns) && Titled(ls, ns) && ls[k] == ns[k] + "=" + value
    && (k == |ls| - 1 ==> NewlineFree(value))
  }

  predicate Titled(ls: seq<string>, ns: seq<string>) {
    |ns| <= |ls| && forall i :: 0 <= i < |ns| ==> NameOf(ls[i]) == ns[i]
  }

  lemma ApartAt(ns: seq<string>, k: nat)
    requires Apart(ns) && k < |ns|
    ensures ns[k] != DS_HEADER && ns[k] != "context" && forall i :: 0 <= i < k ==> ns[i] != ns[k]
  {
    var all := [DS_HEADER, "context"] + ns;
    assert all[0] == DS_HEADER && all[1] == "context" && all[k + 2] == ns[k];
    forall i | 0 <= i < k ensures ns[i] != ns[k] {
      assert all[i + 2] == ns[i];
    }
  }

  lemma LabelledAt(ls: seq<string>, ns: seq<string>, k: nat, value: string)
    requires Labelled(ls, ns, k, value)
    ensures ls[k] == ns[k] + "=" + value && '=' !in ns[k] && ns[k] != DS_HEADER && ns[k] != "context"
    ensures forall i :: 0 <= i < k ==> NameOf(ls[i]) != ns[k]
    ensures k == |ls| - 1 ==> OneLine(ls[k])
  {
    ApartAt(ns, k);
    if k == |ls| - 1 { LastLine(ns[k], value); }
  }

  lemma FieldReads(sha: string -> string, st: Statement, ns: seq<string>, k: nat, value: string)
    requires Accepted(st) && HexDigests(sha) && Labelled(Lines(sha, st), ns, k, value)
    ensures Field(Body(sha, st).value, ns[k]) == Some(value)
    ensures After(Body(sha, st).value, ns[k])
         == Some(if k == |Lines(sha, st)| - 1 then "" else JoinLines(Lines(sha, st)[k + 1..]))
  {
    var ls := Lines(sha, st);
    LinesProper(sha, st);
    ContextNewlineFree(st);
    JoinContinues(ls);
    LabelledAt(ls, ns, k, value);
    UnderHeader(Context(st), JoinLines(ls), ns[k]);
    ReadAt(ls, k, ns[k], value);
  }

  lemma InitAndLast(ns: seq<string>)
    requires ns != []
    ensures ns[..|ns| - 1] + [ns[|ns| - 1]] == ns
  {
  }

  lemma LastNames(line: string, tag: string, value: string)
    requires line == tag + "=" + value && '=' !in tag && NewlineFree(tag) && NewlineFree(value)
    ensures Names(line) == [tag]
  {
    LastLine(tag, value);
    NameOfLast(tag, value);
  }

  lemma NamesOfAll(ls: seq<string>, ns: seq<string>, value: string)
    requires ProperLines(ls) && |ns| == |ls| && forall i :: 0 <= i < |ls| ==> NameOf(ls[i]) == ns[i]
    requires ls[|ls| - 1] == ns[|ls| - 1] + "=" + value
    requires '=' !in ns[|ls| - 1] && NewlineFree(ns[|ls| - 1]) && NewlineFree(value)
    ensures Names(JoinLines(ls)) == ns
  {
    var k := |ns| - 1;
    LastNames(ls[k], ns[k], value);
    NamesJoined(ls, ns[..k]);
    InitAndLast(ns);
  }

  lemma NamesOfLines(h: string, c: string, ls: seq<string>, ns: seq<string>, value: string)
    requires ProperLine(h) && ProperLine(c) && ProperLines(ls)
    requires |ns| == |ls| && Labelled(ls, ns, |ns| - 1, value)
    ensures Names(h + ("\n" + (c + ("\n" + JoinLines(ls))))) == [NameOf(h), NameOf(c)] + ns
  {
    JoinContinues(ls);
    NamesUnder(h, c, JoinLines(ls));
    NamesOfAll(ls, ns, value);
  }

  lemma NamesOfBody(sha: string -> string, st: Statement, ns: seq<string>, value: string)
    requires Accepted(st) && HexDigests(sha)
    requires |ns| == |Lines(sha, st)| && Labelled(Lines(sha, st), ns, |ns| - 1, value)
    ensures Names(Body(sha, st).value) == [DS_HEADER, "context"] + ns
  {
    LinesProper(sha, st);
    ContextNewlineFree(st);
    HeaderLine();
    ContextLine(Context(st));
    NamesOfLines(DS_HEADER, "context=" + Context(st), Lines(sha, st), ns, value);
  }

  // The names of all lines but the last, whatever the last holds.
  lemma NamesOfStart(sha: string -> string, st: Statement, ns: seq<string>)
    requires Accepted(st) && HexDigests(sha) && |ns| == |Lines(sha, st)| - 1
    requires forall i :: 0 <= i < |ns| ==> NameOf(Lines(sha, st)[i]) == ns[i]
    ensures [DS_HEADER, "context"] + ns <= Names(Body(sha, st).value)
  {
    var ls := Lines(sha, st);
    LinesProper(sha, st);
    ContextNewlineFree(st);
    HeaderLine();
    ContextLine(Context(st));
    JoinContinues(ls);
    NamesUnder(DS_HEADER, "context=" + Context(st), JoinLines(ls));
    NamesJoined(ls, ns);
    PrefixOf([DS_HEADER, "context"], ns, Names(ls[|ns|]));
  }

  lemma PrefixOf(a: seq<string>, b: seq<string>, c: seq<string>)
    ensures a + b <= a + (b + c)
  {
  }

  lemma ContextReads(sha: string -> string, st: Statement)
    requires Accepted(st) && HexDigests(sha)
    ensures Field(Body(sha, st).value, "context") == Some(Context(st))
    ensures After(Body(sha, st).value, "context") == Some(JoinLines(Lines(sha, st)))
  {
    LinesProper(sha, st);
    ContextNewlineFree(st);
    JoinContinues(Lines(sha, st));
    ContextOf(Context(st), JoinLines(Lines(sha, st)));
  }

  lemma LastLine(tag: string, value: string)
    requires NewlineFree(tag) && NewlineFree(value)
    ensures OneLine(tag + "=" + value)
  {
  }

  lemma IntSpells(n: int)
    ensures Spells(Some(IntText(n)), n) && NewlineFree(IntText(n))
  {
    var m := if n < 0 then -n else n;
    NatTextPlain(m);
    NatTextValue(m);
    assert n < 0 ==> IntText(n)[1..] == NatText(m);
  }

  // A line written as a label with its '=' and a value.
  lemma Written(full: string, tag: string, value: string)
    requires full == tag + "=" && '=' !in tag
    ensures full + value == tag + "=" + value && NameOf(full + value) == tag
  {
    NameOfLabelled(tag, value);
  }

  // ---- Rotations ----

  const ROTATION: seq<string> := ["address", "old-kid", "new-kid", "new-alg", "ts"]

  lemma RotationNames()
    ensures Tags(ROTATION) && [DS_HEADER, "context"] + ROTATION ==
      ["Kryptolog Signed Message v1", "context", "address", "old-kid", "new-kid", "new-alg", "ts"]
  {
  }

  lemma RotationLines(a: string, b: string, c: string, d: string, e: string)
    requires NewlineFree(e)
    ensures var ls := ["address=" + a, "old-kid=" + b, "new-kid=" + c, "new-alg=" + d, "ts=" + e];
            && Labelled(ls, ROTATION, 0, a) && Labelled(ls, ROTATION, 1, b) && Labelled(ls, ROTATION, 2, c)
            && Labelled(ls, ROTATION, 3, d) && Labelled(ls, ROTATION, 4, e)
  {
    RotationNames();
    Written("address=", "address", a);
    Written("old-kid=", "old-kid", b);
    Written("new-kid=", "new-kid", c);
    Written("new-alg=", "new-alg", d);
    Written("ts=", "ts", e);
  }

  lemma RotationReads(sha: string -> string, st: Statement)
    requires HexDigests(sha) && Accepted(st) && st.Rotation?
    ensures var body := Body(sha, st).value;
            && Names(body) == ["Kryptolog Signed Message v1", "context", "address", "old-kid", "new-kid", "new-alg", "ts"]
            && Field(body, "context") == Some("key-rotation")
            && Field(body, "address") == Some(st.address)
            && Field(body, "old-kid") == Some(st.oldKid) && Field(body, "new-kid") == Some(st.newKid)
            && Field(body, "new-alg") == Some("HKDFwSHA384_P384_ML-KEM-768_CatKDF")
            && Spells(Field(body, "ts"), st.at)
  {
    IntSpells(st.at);
    RotationLines(st.address, st.oldKid, st.newKid, KEM_ALG, IntText(st.at));
    RotationNames();
    ContextReads(sha, st);
    NamesOfBody(sha, st, ROTATION, IntText(st.at));
    FieldReads(sha, st, ROTATION, 0, st.address);
    FieldReads(sha, st, ROTATION, 1, st.oldKid);
    FieldReads(sha, st, ROTATION, 2, st.newKid);
    FieldReads(sha, st, ROTATION, 3, KEM_ALG);
    FieldReads(sha, st, ROTATION, 4, IntText(st.at));
  }

  // ---- Logins ----

  const LOGIN: seq<string> :=
    ["Sign in to Kryptolog", "origin", "deployment", "nonce", "encryption-key-alg", "encryption-key"]

  lemma LoginNames()
    ensures Tags(LOGIN) && [DS_HEADER, "context"] + LOGIN ==
      ["Kryptolog Signed Message v1", "context", "Sign in to Kryptolog", "origin", "deployment", "nonce",
       "encryption-key-alg", "encryption-key"]
  {
  }

  lemma Greeting()
    ensures NameOf("Sign in to Kryptolog") == "Sign in to Kryptolog"
  {
    PlainLine("Sign in to Kryptolog");
  }

  // Lines after an unlabelled one.
  lemma SixLines(ls: seq<string>, ns: seq<string>, vs: seq<string>)
    requires |ls| == |ns| == |vs| == 6 && Tags(ns) && NameOf(ls[0]) == ns[0] && NewlineFree(vs[5])
    requires ls[1] == ns[1] + "=" + vs[1] && ls[2] == ns[2] + "=" + vs[2] && ls[3] == ns[3] + "=" + vs[3]
    requires ls[4] == ns[4] + "=" + vs[4] && ls[5] == ns[5] + "=" + vs[5]
    ensures forall i :: 1 <= i < 6 ==> Labelled(ls, ns, i, vs[i])
  {
    forall i | 1 <= i < 6 ensures NameOf(ls[i]) == ns[i] {
      NameOfLabelled(ns[i], vs[i]);
    }
  }

  lemma LoginLines(a: string, b: string, c: string)
    ensures "origin=" + a == "origin" + "=" + a && "deployment=" + b == "deployment" + "=" + b
    ensures "nonce=" + c == "nonce" + "=" + c
  {
  }

  lemma KeyAlgLine(d: string)
    ensures "encryption-key-alg=" + d == "encryption-key-alg" + "=" + d
  {
  }

  lemma KeyLine(e: string)
    ensures "encryption-key=" + e == "encryption-key" + "=" + e
  {
  }

  function LoginValues(st: Statement): seq<string>
    requires st.Login?
  {
    ["", st.origin, st.deployment, st.nonce, if st.key.GetOr("") != "" then KEM_ALG else "", st.key.GetOr("")]
  }

  lemma LoginPlaces(sha: string -> string, st: Statement)
    requires Accepted(st) && st.Login?
    ensures var ls, vs := Lines(sha, st), LoginValues(st);
            && |ls| == 6 && ls[0] == LOGIN[0] && ls[1] == LOGIN[1] + "=" + vs[1]
            && ls[2] == LOGIN[2] + "=" + vs[2] && ls[3] == LOGIN[3] + "=" + vs[3]
  {
    LoginLines(st.origin, st.deployment, st.nonce);
  }

  lemma LoginKeys(sha: string -> string, st: Statement)
    requires Accepted(st) && st.Login?
    ensures var ls, vs := Lines(sha, st), LoginValues(st);
            && |ls| == 6 && ls[4] == LOGIN[4] + "=" + vs[4] && ls[5] == LOGIN[5] + "=" + vs[5]
            && NewlineFree(vs[5])
  {
    KeyAlgLine(LoginValues(st)[4]);
    KeyLine(st.key.GetOr(""));
  }

  lemma LoginLabelled(sha: string -> string, st: Statement)
    requires Accepted(st) && st.Login?
    ensures forall i :: 1 <= i < 6 ==> Labelled(Lines(sha, st), LOGIN, i, LoginValues(st)[i])
    ensures |Lines(sha, st)| == 6
  {
    LoginNames();
    Greeting();
    LoginPlaces(sha, st);
    LoginKeys(sha, st);
    SixLines(Lines(sha, st), LOGIN, LoginValues(st));
  }

  lemma LoginOrder(sha: string -> string, st: Statement)
    requires HexDigests(sha) && Accepted(st) && st.Login?
    ensures Names(Body(sha, st).value)
         == ["Kryptolog Signed Message v1", "context", "Sign in to Kryptolog", "origin", "deployment",
             "nonce", "encryption-key-alg", "encryption-key"]
  {
    LoginLabelled(sha, st);
    LoginNames();
    NamesOfBody(sha, st, LOGIN, LoginValues(st)[5]);
  }

  lemma LoginReads(sha: string -> string, st: Statement)
    requires HexDigests(sha) && Accepted(st) && st.Login?
    ensures var body := Body(sha, st).value;
            && Names(body) == ["Kryptolog Signed Message v1", "context", "Sign in to Kryptolog", "origin", "deployment",
                               "nonce", "encryption-key-alg", "encryption-key"]
            && Field(body, "context") == Some("login")
            && Field(body, "origin") == Some(st.origin) && Field(body, "deployment") == Some(st.deployment)
            && Field(body, "nonce") == Some(st.nonce)
            && Field(body, "encryption-key-alg")
            == Some(if st.key == None || st.key == Some("") then "" else "HKDFwSHA384_P384_ML-KEM-768_CatKDF")
            && Field(body, "encryption-key") == Some(if st.key.None? then "" else st.key.value)
  {
    var vs := LoginValues(st);
    LoginLabelled(sha, st);
    LoginOrder(sha, st);
    ContextReads(sha, st);
    FieldReads(sha, st, LOGIN, 1, vs[1]);
    FieldReads(sha, st, LOGIN, 2, vs[2]);
    FieldReads(sha, st, LOGIN, 3, vs[3]);
    FieldReads(sha, st, LOGIN, 4, vs[4]);
    FieldReads(sha, st, LOGIN, 5, vs[5]);
  }

  // ---- Attestations ----

  const ATTESTATION: seq<string> := ["address", "encryption-alg", "encryption"]

  lemma AttestationNames()
    ensures Tags(ATTESTATION) && [DS_HEADER, "context"] + ATTESTATION ==
      ["Kryptolog Signed Message v1", "context", "address", "encryption-alg", "encryption"]
  {
  }

  lemma AttestationLines(a: string, b: string, c: string)
    requires NewlineFree(c)
    ensures var ls := ["address=" + a, "encryption-alg=" + b, "encryption=" + c];
            && Labelled(ls, ATTESTATION, 0, a) && Labelled(ls, ATTESTATION, 1, b) && Labelled(ls, ATTESTATION, 2, c)
  {
    AttestationNames();
    Written("address=", "address", a);
    Written("encryption-alg=", "encryption-alg", b);
    Written("encryption=", "encryption", c);
  }

  lemma AttestationReads(sha: string -> string, st: Statement)
    requires HexDigests(sha) && Accepted(st) && st.Attestation?
    ensures var body := Body(sha, st).value;
            && Names(body) == ["Kryptolog Signed Message v1", "context", "address", "encryption-alg", "encryption"]
            && Field(body, "context") == Some("key-attestation")
            && Field(body, "address") == Some(st.address)
            && Field(body, "encryption-alg") == Some("HKDFwSHA384_P384_ML-KEM-768_CatKDF")
            && Field(body, "encryption") == Some(st.publicKey)
  {
    AttestationLines(st.address, KEM_ALG, st.publicKey);
    AttestationNames();
    ContextReads(sha, st);
    NamesOfBody(sha, st, ATTESTATION, st.publicKey);
    FieldReads(sha, st, ATTESTATION, 0, st.address);
    FieldReads(sha, st, ATTESTATION, 1, KEM_ALG);
    FieldReads(sha, st, ATTESTATION, 2, st.publicKey);
  }

  // ---- Approvals: a hash the caller supplies, so the last line is read as what follows ----

  const APPROVAL: seq<string> := ["workflow", "secret"]

  lemma ApprovalNames()
    ensures Tags(APPROVAL) && [DS_HEADER, "context"] + APPROVAL ==
      ["Kryptolog Signed Message v1", "context", "workflow", "secret"]
  {
  }

  lemma ApprovalLines(a: string, b: string, last: string)
    ensures var ls := ["workflow=" + a, "secret=" + b, last];
            && Labelled(ls, APPROVAL, 0, a) && Labelled(ls, APPROVAL, 1, b)
  {
    ApprovalNames();
    Written("workflow=", "workflow", a);
    Written("secret=", "secret", b);
  }

  lemma ApprovalReads(sha: string -> string, st: Statement)
    requires HexDigests(sha) && st.Approval?
    ensures Body(sha, st).Some?
    ensures var body := Body(sha, st).value;
            && ["Kryptolog Signed Message v1", "context", "workflow", "secret"] <= Names(body)
            && Field(body, "context") == Some("multisig-approval")
            && Spells(Field(body, "workflow"), st.workflow) && Spells(Field(body, "secret"), st.secret)
            && After(body, "secret") == Some("ct=" + st.ctHash)
  {
    IntSpells(st.workflow);
    IntSpells(st.secret);
    ApprovalLines(IntText(st.workflow), IntText(st.secret), "ct=" + st.ctHash);
    ApprovalNames();
    ContextReads(sha, st);
    NamesOfStart(sha, st, APPROVAL);
    FieldReads(sha, st, APPROVAL, 0, IntText(st.workflow));
    FieldReads(sha, st, APPROVAL, 1, IntText(st.secret));
    assert Lines(sha, st)[2..] == ["ct=" + st.ctHash];
  }

  // ---- Messages ----

  const MESSAGE: seq<string> := ["from", "conv", "gid", "sid", "ts", "seq", "keysh"]

  lemma MessageNames()
    ensures Tags(MESSAGE) && [DS_HEADER, "context"] + MESSAGE ==
      ["Kryptolog Signed Message v1", "context", "from", "conv", "gid", "sid", "ts", "seq", "keysh"]
  {
  }

  lemma MessageLines(a: string, b: string, c: string, d: string, e: string, f: string, g: string, last: string)
    ensures var ls := ["from=" + a, "conv=" + b, "gid=" + c, "sid=" + d, "ts=" + e, "seq=" + f, "keysh=" + g, last];
            && Labelled(ls, MESSAGE, 0, a) && Labelled(ls, MESSAGE, 1, b) && Labelled(ls, MESSAGE, 2, c)
            && Labelled(ls, MESSAGE, 3, d) && Labelled(ls, MESSAGE, 4, e) && Labelled(ls, MESSAGE, 5, f)
            && Labelled(ls, MESSAGE, 6, g)
  {
    MessageNames();
    Written("from=", "from", a);
    Written("conv=", "conv", b);
    Written("gid=", "gid", c);
    Written("sid=", "sid", d);
    Written("ts=", "ts", e);
    Written("seq=", "seq", f);
    Written("keysh=", "keysh", g);
  }

  // The text whose digest stands for the key map: what the parser reads as it, with
  // the members of every object in ascending order.
  lemma KeysTextRead(keys: Json)
    requires keys.Null? || (EnvelopeShape(keys) && WellFormed(keys))
    ensures Reads(KeysText(keys), keys)
  {
    if !keys.Null? { EnvelopeSpells(keys); }
    CanonicalExactly(keys, KeysText(keys));
  }

  lemma MessageLabelled(sha: string -> string, st: Statement)
    requires HexDigests(sha) && Accepted(st) && st.Message?
    ensures var ls := Lines(sha, st);
            && Labelled(ls, MESSAGE, 0, st.sender) && Labelled(ls, MESSAGE, 1, st.conv)
            && Labelled(ls, MESSAGE, 2, st.gid) && Labelled(ls, MESSAGE, 3, st.sid.s)
            && Labelled(ls, MESSAGE, 4, IntText(st.ts.n)) && Labelled(ls, MESSAGE, 5, IntText(st.seqNo.n))
            && Labelled(ls, MESSAGE, 6, sha(KeysText(st.keys)))
            && |ls| == 8 && ls[7] == CiphertextLine(st.ct)
  {
    MessageLines(st.sender, st.conv, st.gid, st.sid.s, IntText(st.ts.n), IntText(st.seqNo.n),
                 sha(KeysText(st.keys)), CiphertextLine(st.ct));
  }

  lemma MessageParties(sha: string -> string, st: Statement)
    requires HexDigests(sha) && Accepted(st) && st.Message?
    ensures var body := Body(sha, st).value;
            && Field(body, "from") == Some(st.sender) && Field(body, "conv") == Some(st.conv)
            && Field(body, "gid") == Some(st.gid) && Field(body, "sid") == Some(st.sid.s)
  {
    MessageLabelled(sha, st);
    FieldReads(sha, st, MESSAGE, 0, st.sender);
    FieldReads(sha, st, MESSAGE, 1, st.conv);
    FieldReads(sha, st, MESSAGE, 2, st.gid);
    FieldReads(sha, st, MESSAGE, 3, st.sid.s);
  }

  lemma MessageNumbers(sha: string -> string, st: Statement)
    requires HexDigests(sha) && Accepted(st) && st.Message?
    ensures var body := Body(sha, st).value;
            Spells(Field(body, "ts"), st.ts.n) && Spells(Field(body, "seq"), st.seqNo.n)
  {
    IntSpells(st.ts.n);
    IntSpells(st.seqNo.n);
    MessageLabelled(sha, st);
    FieldReads(sha, st, MESSAGE, 4, IntText(st.ts.n));
    FieldReads(sha, st, MESSAGE, 5, IntText(st.seqNo.n));
  }

  lemma MessageRest(sha: string -> string, st: Statement)
    requires HexDigests(sha) && Accepted(st) && st.Message?
    ensures Field(Body(sha, st).value, "keysh") == Some(sha(KeysText(st.keys)))
    ensures After(Body(sha, st).value, "keysh") == Some(CiphertextLine(st.ct))
  {
    MessageLabelled(sha, st);
    FieldReads(sha, st, MESSAGE, 6, sha(KeysText(st.keys)));
    assert Lines(sha, st)[7..] == [CiphertextLine(st.ct)];
  }

  lemma MessageOrder(sha: string -> string, st: Statement)
    requires HexDigests(sha) && Accepted(st) && st.Message?
    ensures ["Kryptolog Signed Message v1", "context", "from", "conv", "gid", "sid", "ts", "seq", "keysh"]
         <= Names(Body(sha, st).value)
  {
    MessageLabelled(sha, st);
    MessageNames();
    NamesOfStart(sha, st, MESSAGE);
  }

  lemma MessageReads(sha: string -> string, st: Statement)
    requires HexDigests(sha) && Accepted(st) && st.Message?
    ensures var body := Body(sha, st).value;
            && ["Kryptolog Signed Message v1", "context", "from", "conv", "gid", "sid", "ts", "seq", "keysh"] <= Names(body)
            && Field(body, "context") == Some("message")
            && Field(body, "from") == Some(st.sender) && Field(body, "conv") == Some(st.conv)
            && Field(body, "gid") == Some(st.gid) && Field(body, "sid") == Some(st.sid.s)
            && Spells(Field(body, "ts"), st.ts.n) && Spells(Field(body, "seq"), st.seqNo.n)
            && Field(body, "keysh") == Some(sha(KeysText(st.keys)))
    ensures WellFormed(st.keys) ==> Reads(KeysText(st.keys), st.keys)
    ensures After(Body(sha, st).value, "keysh") == Some(
              match st.ct
              case Redacted => "redacted=1"
              case Serialized(text) => "ct=" + text
              case Sealed(iv, content) => "ct=" + iv + "." + content)
  {
    ContextReads(sha, st);
    MessageOrder(sha, st);
    MessageParties(sha, st);
    MessageNumbers(sha, st);
    MessageRest(sha, st);
    if st.ct.Sealed? { CiphertextLineText(st.ct); }
    if WellFormed(st.keys) { KeysTextRead(st.keys); }
  }

  lemma CiphertextLineText(ct: Ciphertext)
    requires ct.Sealed?
    ensures CiphertextLine(ct) == "ct=" + ct.iv + "." + ct.content
  {
    assert "ct=" + (ct.iv + "." + ct.content) == "ct=" + ct.iv + "." + ct.content;
  }

  // ---- Deletions and erases ----

  // The text that stands for a set of redaction keys: their array, in ascending order.
  ghost predicate ReadsKeys(text: string, keys: seq<string>) {
    exists xs: seq<string> :: Ascending(xs) && multiset(xs) == multiset(keys)
                              && ParseValue(text) == Some((Arr(StrItems(xs)), ""))
  }

  const DELETION: seq<string> := ["origin", "deployment", "nonce", "mode", "redactions"]
  const ERASE: seq<string> := ["origin", "deployment", "nonce", "conversation", "redactions"]

  lemma DeletionNames()
    ensures Tags(DELETION) && [DS_HEADER, "context"] + DELETION ==
      ["Kryptolog Signed Message v1", "context", "origin", "deployment", "nonce", "mode", "redactions"]
  {
  }

  lemma EraseNames()
    ensures Tags(ERASE) && [DS_HEADER, "context"] + ERASE ==
      ["Kryptolog Signed Message v1", "context", "origin", "deployment", "nonce", "conversation", "redactions"]
  {
  }

  lemma DeletionLines(a: string, b: string, c: string, d: string, e: string)
    requires NewlineFree(e)
    ensures var ls := ["origin=" + a, "deployment=" + b, "nonce=" + c, "mode=" + d, "redactions=" + e];
            && Labelled(ls, DELETION, 0, a) && Labelled(ls, DELETION, 1, b) && Labelled(ls, DELETION, 2, c)
            && Labelled(ls, DELETION, 3, d) && Labelled(ls, DELETION, 4, e)
  {
    DeletionNames();
    Written("origin=", "origin", a);
    Written("deployment=", "deployment", b);
    Written("nonce=", "nonce", c);
    Written("mode=", "mode", d);
    Written("redactions=", "redactions", e);
  }

  lemma EraseLines(a: string, b: string, c: string, d: string, e: string)
    requires NewlineFree(e)
    ensures var ls := ["origin=" + a, "deployment=" + b, "nonce=" + c, "conversation=" + d, "redactions=" + e];
            && Labelled(ls, ERASE, 0, a) && Labelled(ls, ERASE, 1, b) && Labelled(ls, ERASE, 2, c)
            && Labelled(ls, ERASE, 3, d) && Labelled(ls, ERASE, 4, e)
  {
    EraseNames();
    Written("origin=", "origin", a);
    Written("deployment=", "deployment", b);
    Written("nonce=", "nonce", c);
    Written("conversation=", "conversation", d);
    Written("redactions=", "redactions", e);
  }

  lemma DeletionReads(sha: string -> string, st: Statement)
    requires HexDigests(sha) && Accepted(st) && st.Deletion?
    ensures var body := Body(sha, st).value;
            && Names(body)
            == ["Kryptolog Signed Message v1", "context", "origin", "deployment", "nonce", "mode", "redactions"]
            && Field(body, "context") == Some("account-deletion")
            && Field(body, "origin") == Some(st.origin) && Field(body, "deployment") == Some(st.deployment)
            && Field(body, "nonce") == Some(st.nonce) && Field(body, "mode") == Some(st.mode)
    ensures exists text :: ReadsKeys(text, st.redactions) && Field(Body(sha, st).value, "redactions") == Some(sha(text))
  {
    var digest := sha(RedactionKeysText(st.redactions));
    DeletionLines(st.origin, st.deployment, st.nonce, st.mode, digest);
    DeletionNames();
    ContextReads(sha, st);
    NamesOfBody(sha, st, DELETION, digest);
    FieldReads(sha, st, DELETION, 0, st.origin);
    FieldReads(sha, st, DELETION, 1, st.deployment);
    FieldReads(sha, st, DELETION, 2, st.nonce);
    FieldReads(sha, st, DELETION, 3, st.mode);
    FieldReads(sha, st, DELETION, 4, digest);
    RedactionKeysRead(st.redactions);
    assert ReadsKeys(RedactionKeysText(st.redactions), st.redactions);
  }

  lemma EraseReads(sha: string -> string, st: Statement)
    requires HexDigests(sha) && Accepted(st) && st.ConversationErase?
    ensures var body := Body(sha, st).value;
            && Names(body)
            == ["Kryptolog Signed Message v1", "context", "origin", "deployment", "nonce", "conversation", "redactions"]
            && Field(body, "context") == Some("conversation-erase")
            && Field(body, "origin") == Some(st.origin) && Field(body, "deployment") == Some(st.deployment)
            && Field(body, "nonce") == Some(st.nonce)
            && Field(body, "conversation") == Some(st.kind + ":" + st.conversation)
    ensures exists text :: ReadsKeys(text, st.redactions) && Field(Body(sha, st).value, "redactions") == Some(sha(text))
  {
    var digest := sha(RedactionKeysText(st.redactions));
    EraseLines(st.origin, st.deployment, st.nonce, st.kind + ":" + st.conversation, digest);
    EraseNames();
    ContextReads(sha, st);
    NamesOfBody(sha, st, ERASE, digest);
    FieldReads(sha, st, ERASE, 0, st.origin);
    FieldReads(sha, st, ERASE, 1, st.deployment);
    FieldReads(sha, st, ERASE, 2, st.nonce);
    FieldReads(sha, st, ERASE, 3, st.kind + ":" + st.conversation);
    FieldReads(sha, st, ERASE, 4, digest);
    RedactionKeysRead(st.redactions);
    assert ReadsKeys(RedactionKeysText(st.redactions), st.redactions);
  }
}
