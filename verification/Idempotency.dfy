/**
  Idempotency keys: three normalized parts printed in a canonical form, and the parser for that form.
  The form separates with ';' and '=' without quoting, so the parser is only a partial inverse.
 */
module Idempotency {
  import opened Wrappers
  import opened Text

  const VERSION := "v1"
  const MAX_PART_LENGTH := 128

  datatype Input = Input(tenant: string, strategy: string, clientOrderID: string)
  datatype Parts = Parts(tenant: string, strategy: string, clientOrderID: string)
  datatype IdempotencyKey = IdempotencyKey(version: string, canonical: string, digest: string, value: string)

  datatype BuildError = TenantRequired | StrategyRequired | ClientOrderIDRequired | PartTooLong
  datatype ParseError = CanonicalInvalid

  // ---------------------------------------------------------------- printing

  function NormalizeScopePart(v: string): string {
    ToLower(TrimSpace(v))
  }

  /** Length of the UTF-8 encoding. */
  function ByteLength(s: string): nat {
    if s == [] then 0
    else (if s[0] < '\U{80}' then 1 else if s[0] < '\U{800}' then 2 else if s[0] < '\U{10000}' then 3 else 4)
         + ByteLength(s[1..])
  }

  function Normalize(input: Input): Parts {
    Parts(NormalizeScopePart(input.tenant), NormalizeScopePart(input.strategy), TrimSpace(input.clientOrderID))
  }

  function Canonical(p: Parts): string {
    Join3(Pair("tenant", p.tenant), Pair("strategy", p.strategy), Pair("client_order_id", p.clientOrderID))
  }

  function Pair(key: string, value: string): string {
    key + ['='] + value
  }

  function Join3(a: string, b: string, c: string): string {
    a + ";" + b + ";" + c
  }

  /** `digest` stands for the hash of the canonical form in hexadecimal. */
  function Build(input: Input, digest: string -> string): Result<IdempotencyKey, BuildError> {
    var p := Normalize(input);
    if p.tenant == "" then Failure(TenantRequired)
    else if p.strategy == "" then Failure(StrategyRequired)
    else if p.clientOrderID == "" then Failure(ClientOrderIDRequired)
    else if ByteLength(p.tenant) > MAX_PART_LENGTH || ByteLength(p.strategy) > MAX_PART_LENGTH
            || ByteLength(p.clientOrderID) > MAX_PART_LENGTH then Failure(PartTooLong)
    else
      var canonical := Canonical(p);
      Success(IdempotencyKey(VERSION, canonical, digest(canonical), "idem:" + VERSION + ":" + digest(canonical)))
  }

  // ---------------------------------------------------------------- parsing

  /** Position of the first c, or the length if there is none. */
  function IndexOf(s: string, c: char): (i: nat)
    ensures i <= |s| && c !in s[..i] && (i < |s| ==> s[i] == c)
  {
    if s == [] || s[0] == c then 0
    else
      var i := 1 + IndexOf(s[1..], c);
      assert s[..i] == [s[0]] + s[1..][..i - 1];
      i
  }

  function Split(s: string, sep: char): (parts: seq<string>)
    ensures |parts| >= 1
    decreases |s|
  {
    var i := IndexOf(s, sep);
    if i == |s| then [s] else [s[..i]] + Split(s[i + 1..], sep)
  }

  /** key=value with both trimmed and non-empty; only the first '=' separates. */
  function ParsePart(part: string): Option<(string, string)> {
    var kv := TrimSpace(part);
    var i := IndexOf(kv, '=');
    if i == |kv| then None
    else
      var k, v := TrimSpace(kv[..i]), TrimSpace(kv[i + 1..]);
      if k == "" || v == "" then None else Some((k, v))
  }

  function Collect(parts: seq<string>, lookup: map<string, string>): Option<map<string, string>>
    decreases |parts|
  {
    if parts == [] then Some(lookup)
    else match ParsePart(parts[0])
      case None => None
      case Some((k, v)) => Collect(parts[1..], lookup[k := v])
  }

  function Get(lookup: map<string, string>, k: string): string {
    if k in lookup then lookup[k] else ""
  }

  function ParseParts(parts: seq<string>): Result<Parts, ParseError> {
    if |parts| != 3 then Failure(CanonicalInvalid)
    else match Collect(parts, map[])
      case None => Failure(CanonicalInvalid)
      case Some(lookup) =>
        var out := Parts(Get(lookup, "tenant"), Get(lookup, "strategy"), Get(lookup, "client_order_id"));
        if out.tenant == "" || out.strategy == "" || out.clientOrderID == "" then Failure(CanonicalInvalid)
        else Success(out)
  }

  function Parse(canonical: string): Result<Parts, ParseError> {
    var s := TrimSpace(canonical);
    if s == "" then Failure(CanonicalInvalid) else ParseParts(Split(s, ';'))
  }

  method ParseIdempotencyCanonical(canonical: string) returns (r: Result<Parts, ParseError>)
    ensures r == Parse(canonical)
  {
    hide TrimSpace, IndexOf, Split, Get;
    var s := TrimSpace(canonical);
    if s == "" {
      return Failure(CanonicalInvalid);
    }
    var parts := Split(s, ';');
    if |parts| != 3 {
      return Failure(CanonicalInvalid);
    }
    var lookup: map<string, string> := map[];
    var i := 0;
    while i < |parts|
      invariant 0 <= i <= |parts|
      invariant Collect(parts[i..], lookup) == Collect(parts, map[])
    {
      assert parts[i..][0] == parts[i] && parts[i..][1..] == parts[i + 1..];
      var kv := TrimSpace(parts[i]);
      var eq := IndexOf(kv, '=');
      if eq == |kv| {
        return Failure(CanonicalInvalid);
      }
      var k, v := TrimSpace(kv[..eq]), TrimSpace(kv[eq + 1..]);
      if k == "" || v == "" {
        return Failure(CanonicalInvalid);
      }
      lookup := lookup[k := v];
      i := i + 1;
    }
    var out := Parts(Get(lookup, "tenant"), Get(lookup, "strategy"), Get(lookup, "client_order_id"));
    if out.tenant == "" || out.strategy == "" || out.clientOrderID == "" {
      return Failure(CanonicalInvalid);
    }
    return Success(out);
  }

  // ---------------------------------------------------------------- splitting

  lemma {:induction false} IndexOfSkips(a: string, c: char, rest: string)
    requires c !in a
    ensures IndexOf(a + rest, c) == |a| + IndexOf(rest, c)
  {
    if a == [] {
      assert a + rest == rest;
    } else {
      assert (a + rest)[1..] == a[1..] + rest;
      IndexOfSkips(a[1..], c, rest);
    }
  }

  lemma IndexOfAt(a: string, c: char, rest: string)
    requires c !in a
    ensures IndexOf(a + [c] + rest, c) == |a|
  {
    IndexOfSkips(a, c, [c] + rest);
    assert a + [c] + rest == a + ([c] + rest);
  }

  lemma IndexOfAbsent(s: string, c: char)
    requires c !in s
    ensures IndexOf(s, c) == |s|
  {
    IndexOfSkips(s, c, []);
    assert s + [] == s;
  }

  lemma SplitNone(s: string, sep: char)
    requires sep !in s
    ensures Split(s, sep) == [s]
  {
    IndexOfAbsent(s, sep);
  }

  lemma SplitAt(a: string, sep: char, rest: string)
    requires sep !in a
    ensures Split(a + [sep] + rest, sep) == [a] + Split(rest, sep)
  {
    var s := a + [sep] + rest;
    assert s[..|a|] == a && s[|a|] == sep && s[|a| + 1..] == rest;
    IndexOfAt(a, sep, rest);
  }

  lemma Split3(a: string, b: string, c: string)
    requires ';' !in a && ';' !in b && ';' !in c
    ensures Split(Join3(a, b, c), ';') == [a, b, c]
  {
    assert Join3(a, b, c) == a + [';'] + (b + [';'] + c);
    SplitAt(a, ';', b + [';'] + c);
    SplitAt(b, ';', c);
    SplitNone(c, ';');
  }

  /** One part more than there are separators. */
  lemma {:induction false} SplitCounts(s: string, sep: char)
    ensures |Split(s, sep)| == multiset(s)[sep] + 1
    decreases |s|
  {
    hide IndexOf;
    var i := IndexOf(s, sep);
    if i == |s| {
      assert s[..i] == s;
    } else {
      var left, right := s[..i], s[i + 1..];
      SplitCounts(right, sep);
      assert s == left + ([sep] + right);
      assert multiset(left)[sep] == 0;
    }
  }

  lemma Join3Counts(a: string, b: string, c: string)
    ensures multiset(Join3(a, b, c))[';'] == multiset(a)[';'] + multiset(b)[';'] + multiset(c)[';'] + 2
  {
  }

  // ---------------------------------------------------------------- trimming

  lemma ParsePartIgnoresSpace(pre: string, part: string, post: string)
    requires AllSpace(pre) && AllSpace(post)
    ensures ParsePart(pre + part + post) == ParsePart(part)
  {
    hide TrimSpace, IsSpace, IndexOf;
    var a, b := TrimSplits(part);
    var mid := TrimSpace(part);
    TrimIs(pre + a, mid, b + post);
    assert pre + part + post == (pre + a) + mid + (b + post);
  }

  // ---------------------------------------------------------------- round trip

  lemma PartReadsBack(key: string, value: string)
    requires key != "" && Trimmed(key) && '=' !in key && value != "" && Trimmed(value)
    ensures ParsePart(Pair(key, value)) == Some((key, value))
  {
    hide TrimSpace, IsSpace, IndexOf;
    var s := key + ['='] + value;
    assert Trimmed(s) by {
      assert s[0] == key[0] && s[|s| - 1] == value[|value| - 1];
    }
    TrimSpaceKeeps(s);
    assert s[..|key|] == key && s[|key| + 1..] == value;
    IndexOfAt(key, '=', value);
    TrimSpaceKeeps(key);
    TrimSpaceKeeps(value);
  }

  lemma Collect3(a: string, b: string, c: string)
    ensures Collect([a, b, c], map[])
            == if ParsePart(a).None? || ParsePart(b).None? || ParsePart(c).None? then None
               else Some(map[][ParsePart(a).value.0 := ParsePart(a).value.1]
                              [ParsePart(b).value.0 := ParsePart(b).value.1]
                              [ParsePart(c).value.0 := ParsePart(c).value.1])
  {
    hide ParsePart;
    assert [a, b, c][1..] == [b, c] && [b, c][1..] == [c] && [c][1..] == [];
    if ParsePart(a).Some? {
      var m1: map<string, string> := map[][ParsePart(a).value.0 := ParsePart(a).value.1];
      assert Collect([a, b, c], map[]) == Collect([b, c], m1);
      if ParsePart(b).Some? {
        var m2 := m1[ParsePart(b).value.0 := ParsePart(b).value.1];
        assert Collect([b, c], m1) == Collect([c], m2);
        if ParsePart(c).Some? {
          var m3 := m2[ParsePart(c).value.0 := ParsePart(c).value.1];
          assert Collect([c], m2) == Collect([], m3);
        }
      }
    }
  }

  ghost predicate Printable(p: Parts) {
    && p.tenant != "" && p.strategy != "" && p.clientOrderID != ""
    && Trimmed(p.tenant) && Trimmed(p.strategy) && Trimmed(p.clientOrderID)
  }

  lemma NormalizedIsTrimmed(input: Input)
    ensures var p := Normalize(input); Trimmed(p.tenant) && Trimmed(p.strategy) && Trimmed(p.clientOrderID)
  {
    TrimSpaceTrims(input.tenant);
    TrimSpaceTrims(input.strategy);
    TrimSpaceTrims(input.clientOrderID);
    ToLowerKeepsTrimmed(TrimSpace(input.tenant));
    ToLowerKeepsTrimmed(TrimSpace(input.strategy));
  }

  lemma KeysAreBare()
    ensures Trimmed("tenant") && Trimmed("strategy") && Trimmed("client_order_id")
    ensures '=' !in "tenant" && '=' !in "strategy" && '=' !in "client_order_id"
    ensures ';' !in "tenant" && ';' !in "strategy" && ';' !in "client_order_id"
  {
  }

  lemma RequiredDistinct()
    ensures "tenant" != "strategy" && "tenant" != "client_order_id" && "strategy" != "client_order_id"
  {
    assert |"tenant"| == 6 && |"strategy"| == 8 && |"client_order_id"| == 15;
  }

  lemma CanonicalIsTrimmed(p: Parts)
    requires Printable(p)
    ensures TrimSpace(Canonical(p)) == Canonical(p) != ""
  {
    hide TrimSpace;
    JoinIsTrimmed("tenant", p.tenant, Pair("strategy", p.strategy), "client_order_id", p.clientOrderID);
    KeysAreBare();
    TrimSpaceKeeps(Canonical(p));
  }

  lemma JoinIsTrimmed(key: string, value: string, mid: string, lastKey: string, last: string)
    requires Trimmed(key) && key != "" && Trimmed(last) && last != ""
    ensures var s := Join3(Pair(key, value), mid, Pair(lastKey, last)); Trimmed(s) && s != ""
  {
    hide IsSpace;
    var s := Join3(Pair(key, value), mid, Pair(lastKey, last));
    assert s[0] == key[0] && s[|s| - 1] == last[|last| - 1];
  }

  predicate NoSemicolon(p: Parts) {
    ';' !in p.tenant && ';' !in p.strategy && ';' !in p.clientOrderID
  }

  lemma Printed(p: Parts)
    requires Printable(p)
    ensures ParsePart(Pair("tenant", p.tenant)) == Some(("tenant", p.tenant))
    ensures ParsePart(Pair("strategy", p.strategy)) == Some(("strategy", p.strategy))
    ensures ParsePart(Pair("client_order_id", p.clientOrderID)) == Some(("client_order_id", p.clientOrderID))
  {
    hide ParsePart, Trimmed, Pair;
    KeysAreBare();
    PartReadsBack("tenant", p.tenant);
    PartReadsBack("strategy", p.strategy);
    PartReadsBack("client_order_id", p.clientOrderID);
  }

  /** Three parts with the required keys are read back, whatever the text around them was. */
  lemma ReadParts(a: string, b: string, c: string, p: Parts)
    requires p.tenant != "" && p.strategy != "" && p.clientOrderID != ""
    requires ParsePart(a) == Some(("tenant", p.tenant))
    requires ParsePart(b) == Some(("strategy", p.strategy))
    requires ParsePart(c) == Some(("client_order_id", p.clientOrderID))
    ensures ParseParts([a, b, c]) == Success(p)
  {
    hide ParsePart, Collect;
    Collect3(a, b, c);
    RequiredDistinct();
  }

  lemma PairCounts(key: string, value: string)
    requires ';' !in key
    ensures multiset(Pair(key, value))[';'] == multiset(value)[';']
  {
  }

  /** Each ';' inside a part makes one part too many. */
  lemma CanonicalSplits(p: Parts)
    ensures NoSemicolon(p) ==> Split(Canonical(p), ';')
                               == [Pair("tenant", p.tenant), Pair("strategy", p.strategy), Pair("client_order_id", p.clientOrderID)]
    ensures !NoSemicolon(p) ==> |Split(Canonical(p), ';')| > 3
  {
    hide Split, Join3, Pair;
    var a, b, c := Pair("tenant", p.tenant), Pair("strategy", p.strategy), Pair("client_order_id", p.clientOrderID);
    KeysAreBare();
    SplitCounts(Canonical(p), ';');
    Join3Counts(a, b, c);
    PairCounts("tenant", p.tenant);
    PairCounts("strategy", p.strategy);
    PairCounts("client_order_id", p.clientOrderID);
    if NoSemicolon(p) {
      assert ';' !in multiset(a) && ';' !in multiset(b) && ';' !in multiset(c);
      Split3(a, b, c);
    }
  }

  /** The parser undoes the printer exactly on parts without ';', and otherwise fails rather than misread. */
  lemma CanonicalReadsBack(p: Parts)
    requires Printable(p)
    ensures Parse(Canonical(p)) == if NoSemicolon(p) then Success(p) else Failure(CanonicalInvalid)
  {
    hide ParsePart, Split, Collect, TrimSpace, Trimmed, Canonical, Pair, NoSemicolon;
    CanonicalIsTrimmed(p);
    CanonicalSplits(p);
    if NoSemicolon(p) {
      Printed(p);
      ReadParts(Pair("tenant", p.tenant), Pair("strategy", p.strategy), Pair("client_order_id", p.clientOrderID), p);
    }
  }

  /** For every key that can be built, parsing its canonical form gives the normalized parts or an error. */
  lemma BuiltKeyReadsBack(input: Input, digest: string -> string)
    requires Build(input, digest).Success?
    ensures Parse(Build(input, digest).value.canonical)
            == if NoSemicolon(Normalize(input)) then Success(Normalize(input)) else Failure(CanonicalInvalid)
  {
    hide Parse, Canonical, NormalizeScopePart, TrimSpace, ByteLength;
    NormalizedIsTrimmed(input);
    CanonicalReadsBack(Normalize(input));
  }

  /** Parts without ';' share their canonical form with no other parts, whatever those contain. */
  lemma BareFormsAreUnique(p: Parts, q: Parts)
    requires Printable(p) && Printable(q) && NoSemicolon(p) && Canonical(p) == Canonical(q)
    ensures p == q
  {
    hide Parse, Canonical, NoSemicolon, Trimmed;
    CanonicalReadsBack(p);
    CanonicalReadsBack(q);
  }

  /**
    Different parts, different canonical forms, as soon as one side has no ';'; and different key values when
    the hash does not collide.
   */
  lemma BuiltKeysAreDistinct(a: Input, b: Input, digest: string -> string)
    requires Build(a, digest).Success? && Build(b, digest).Success?
    requires NoSemicolon(Normalize(a)) && Normalize(a) != Normalize(b)
    ensures Build(a, digest).value.canonical != Build(b, digest).value.canonical
    ensures digest(Build(a, digest).value.canonical) != digest(Build(b, digest).value.canonical)
            ==> Build(a, digest).value.value != Build(b, digest).value.value
  {
    hide Parse, Canonical, NormalizeScopePart, TrimSpace, NoSemicolon, ByteLength, Trimmed;
    NormalizedIsTrimmed(a);
    NormalizedIsTrimmed(b);
    if Canonical(Normalize(a)) == Canonical(Normalize(b)) {
      BareFormsAreUnique(Normalize(a), Normalize(b));
    }
    var x, y := Build(a, digest).value, Build(b, digest).value;
    var prefix := "idem:" + VERSION + ":";
    assert x.value[|prefix|..] == x.digest && y.value[|prefix|..] == y.digest;
  }

  lemma Rejoin(t: string, u: string, k: string, v: string, kv: string, last: string)
    ensures Join3(Pair(t, u + [';'] + Pair(k, v)), kv, last) == Join3(Pair(t, u), Pair(k, v + [';'] + kv), last)
  {
    assert Pair(t, u + [';'] + Pair(k, v)) == t + ['='] + u + [';'] + k + ['='] + v;
  }

  /** With ';' allowed, different parts can print alike: a separator moves freely between neighbours. */
  lemma SemicolonsCollide(x: string, y: string, z: string, w: string)
    ensures var a := Parts(x + [';'] + Pair("strategy", y), z, w);
            var b := Parts(x, y + [';'] + Pair("strategy", z), w);
            && a != b && Canonical(a) == Canonical(b)
            && (Printable(Parts(x, y, w)) && z != "" && Trimmed(z) ==> Printable(a) && Printable(b))
  {
    hide Pair, Trimmed;
    Rejoin("tenant", x, "strategy", y, Pair("strategy", z), Pair("client_order_id", w));
    assert |x + [';'] + Pair("strategy", y)| > |x|;
    if Printable(Parts(x, y, w)) && z != "" && Trimmed(z) {
      TrimmedAround(x, [';'], "strategy", y);
      TrimmedAround(y, [';'], "strategy", z);
    }
  }

  lemma TrimmedAround(u: string, sep: string, k: string, v: string)
    requires u != "" && v != "" && Trimmed(u) && Trimmed(v)
    ensures Trimmed(u + sep + Pair(k, v))
  {
    hide IsSpace;
    var s := u + sep + Pair(k, v);
    assert s[0] == u[0] && s[|s| - 1] == v[|v| - 1];
  }

  // ---------------------------------------------------------------- exactly when forms collide

  function StrategyMark(): string {
    [';'] + "strategy" + ['=']
  }

  function OrderMark(): string {
    [';'] + "client_order_id" + ['=']
  }

  /** The canonical form without its fixed beginning. */
  function Body(p: Parts): string {
    p.tenant + StrategyMark() + p.strategy + OrderMark() + p.clientOrderID
  }

  /** The text has the two marks at these positions, in this order. */
  predicate Marked(text: string, i: nat, j: nat) {
    && i + |StrategyMark()| <= j && j + |OrderMark()| <= |text|
    && text[i..i + |StrategyMark()|] == StrategyMark()
    && text[j..j + |OrderMark()|] == OrderMark()
  }

  /** What lies around the marks. */
  function Pieces(text: string, i: nat, j: nat): Parts
    requires Marked(text, i, j)
  {
    Parts(text[..i], text[i + |StrategyMark()|..j], text[j + |OrderMark()|..])
  }

  /** Where the marks of p itself stand. */
  function HomeI(p: Parts): nat {
    |p.tenant|
  }

  function HomeJ(p: Parts): nat {
    |p.tenant| + |StrategyMark()| + |p.strategy|
  }

  lemma CanonicalIsBody(p: Parts)
    ensures Canonical(p) == "tenant" + ['='] + Body(p)
  {
  }

  lemma SameBodySameCanonical(p: Parts, q: Parts)
    ensures Canonical(p) == Canonical(q) <==> Body(p) == Body(q)
  {
    hide Canonical, Body;
    CanonicalIsBody(p);
    CanonicalIsBody(q);
    var head := "tenant" + ['='];
    assert Canonical(p)[|head|..] == Body(p) && Canonical(q)[|head|..] == Body(q);
  }

  lemma Glue(text: string, i: nat, j: nat)
    requires Marked(text, i, j)
    ensures Body(Pieces(text, i, j)) == text
  {
    hide StrategyMark, OrderMark;
    var a, b := i + |StrategyMark()|, j + |OrderMark()|;
    assert text == text[..i] + text[i..a] + text[a..j] + text[j..b] + text[b..];
  }

  lemma Home(p: Parts)
    ensures Marked(Body(p), HomeI(p), HomeJ(p)) && Pieces(Body(p), HomeI(p), HomeJ(p)) == p
  {
    hide StrategyMark, OrderMark;
    var text, a, b := Body(p), HomeI(p) + |StrategyMark()|, HomeJ(p) + |OrderMark()|;
    assert text[HomeI(p)..a] == StrategyMark();
    assert text[HomeJ(p)..b] == OrderMark();
    assert text[..HomeI(p)] == p.tenant && text[a..HomeJ(p)] == p.strategy && text[b..] == p.clientOrderID;
  }

  /** Where the marks stand determines the parts. */
  lemma PiecesDiffer(p: Parts, i: nat, j: nat)
    requires Marked(Body(p), i, j)
    ensures Pieces(Body(p), i, j) == p <==> i == HomeI(p) && j == HomeJ(p)
  {
    hide StrategyMark, OrderMark, Body;
    Home(p);
    assert |Pieces(Body(p), i, j).tenant| == i;
    assert |Pieces(Body(p), i, j).strategy| == j - i - |StrategyMark()|;
  }

  /**
    Parts share their canonical form with other parts of a class exactly if the two marks occur in it at other
    places too, leaving pieces of that class. The class may be what is printable or what can be built.
   */
  lemma CollidesIff(p: Parts, allowed: Parts -> bool)
    ensures (exists q :: allowed(q) && q != p && Canonical(q) == Canonical(p))
            <==> exists i: nat, j: nat :: Marked(Body(p), i, j) && (i != HomeI(p) || j != HomeJ(p)) && allowed(Pieces(Body(p), i, j))
  {
    hide Canonical, Body, Marked, Pieces, HomeI, HomeJ;
    if q :| allowed(q) && q != p && Canonical(q) == Canonical(p) {
      SameBodySameCanonical(p, q);
      Home(q);
      PiecesDiffer(p, HomeI(q), HomeJ(q));
    }
    if i: nat, j: nat :| Marked(Body(p), i, j) && (i != HomeI(p) || j != HomeJ(p)) && allowed(Pieces(Body(p), i, j)) {
      var q := Pieces(Body(p), i, j);
      Glue(Body(p), i, j);
      PiecesDiffer(p, i, j);
      SameBodySameCanonical(p, q);
    }
  }

  /** Parts that some input is normalized to and built from. */
  ghost predicate Buildable(p: Parts) {
    && Printable(p) && ToLower(p.tenant) == p.tenant && ToLower(p.strategy) == p.strategy
    && ByteLength(p.tenant) <= 128 && ByteLength(p.strategy) <= 128 && ByteLength(p.clientOrderID) <= 128
  }

  lemma BuildableIff(p: Parts, digest: string -> string)
    ensures Buildable(p) <==> exists input :: Normalize(input) == p && Build(input, digest).Success?
  {
    hide TrimSpace, Trimmed, ByteLength, Canonical, ToLower;
    if Buildable(p) {
      TrimSpaceKeeps(p.tenant);
      TrimSpaceKeeps(p.strategy);
      TrimSpaceKeeps(p.clientOrderID);
      assert Normalize(Input(p.tenant, p.strategy, p.clientOrderID)) == p;
    }
    if input :| Normalize(input) == p && Build(input, digest).Success? {
      NormalizedIsTrimmed(input);
      LowerTwice(TrimSpace(input.tenant));
      LowerTwice(TrimSpace(input.strategy));
    }
  }

  lemma LowerTwice(s: string)
    ensures ToLower(ToLower(s)) == ToLower(s)
  {
  }

  /** For keys: a built key's form is also another input's exactly if its marks can be read elsewhere as buildable parts. */
  lemma BuiltKeyCollidesIff(p: Parts)
    requires Buildable(p)
    ensures (exists q :: Buildable(q) && q != p && Canonical(q) == Canonical(p))
            <==> exists i: nat, j: nat ::
                   Marked(Body(p), i, j) && (i != HomeI(p) || j != HomeJ(p)) && Buildable(Pieces(Body(p), i, j))
    ensures (exists q :: Buildable(q) && q != p && Canonical(q) == Canonical(p)) ==> !NoSemicolon(p)
  {
    hide Canonical, Body, Marked, Pieces, HomeI, HomeJ, Printable, NoSemicolon;
    CollidesIff(p, q => Buildable(q));
    if q :| Buildable(q) && q != p && Canonical(q) == Canonical(p) {
      if NoSemicolon(p) {
        BareFormsAreUnique(p, q);
      }
    }
  }

  lemma {:induction false} ByteLengthBound(s: string)
    ensures ByteLength(s) <= 4 * |s|
  {
    if s == [] {
    } else {
      ByteLengthBound(s[1..]);
    }
  }

  lemma LowerParts(a: string, b: string)
    requires ToLower(a) == a && ToLower(b) == b
    ensures ToLower(a + b) == a + b
  {
    assert forall k :: 0 <= k < |a| ==> ToLower(a)[k] == a[k];
    assert forall k :: 0 <= k < |b| ==> ToLower(b)[k] == b[k];
  }

  /** Such keys can be built: any four short lower-case texts give two of them. */
  lemma BuiltKeysCollide(x: string, y: string, z: string, w: string)
    requires Buildable(Parts(x, y, w)) && Buildable(Parts(x, z, w))
    requires |x| + |y| <= 22 && |y| + |z| <= 22
    ensures var a := Parts(x + [';'] + Pair("strategy", y), z, w);
            var b := Parts(x, y + [';'] + Pair("strategy", z), w);
            a != b && Buildable(a) && Buildable(b) && Canonical(a) == Canonical(b)
  {
    hide Trimmed, Canonical, ToLower, ByteLength;
    SemicolonsCollide(x, y, z, w);
    LowerMark();
    LowerJoined(x, y);
    LowerJoined(y, z);
    ByteLengthBound(x + [';'] + Pair("strategy", y));
    ByteLengthBound(y + [';'] + Pair("strategy", z));
  }

  lemma LowerMark()
    ensures ToLower([';'] + ("strategy" + ['='])) == [';'] + ("strategy" + ['='])
  {
  }

  lemma LowerJoined(u: string, v: string)
    requires ToLower(u) == u && ToLower(v) == v
    ensures ToLower(u + [';'] + Pair("strategy", v)) == u + [';'] + Pair("strategy", v)
  {
    hide ToLower;
    LowerMark();
    var mark := [';'] + ("strategy" + ['=']);
    LowerParts(u, mark);
    LowerParts(u + mark, v);
    assert u + [';'] + Pair("strategy", v) == (u + mark) + v;
  }

  // ---------------------------------------------------------------- what the parser accepts

  lemma PartsNonEmpty(part: string)
    ensures ParsePart(part).Some? ==> ParsePart(part).value.0 != "" && ParsePart(part).value.1 != ""
  {
    hide TrimSpace, IndexOf;
  }

  /** Three ';'-free parts, each key=value, carrying the three required keys once each, in any order. */
  ghost predicate Acceptable(a: string, b: string, c: string) {
    && ';' !in a && ';' !in b && ';' !in c
    && ParsePart(a).Some? && ParsePart(b).Some? && ParsePart(c).Some?
    && {ParsePart(a).value.0, ParsePart(b).value.0, ParsePart(c).value.0} == {"tenant", "strategy", "client_order_id"}
  }

  ghost predicate ReadsTo(part: string, p: Parts) {
    && ParsePart(part).Some?
    && var (k, v) := ParsePart(part).value;
       && (k == "tenant" ==> p.tenant == v)
       && (k == "strategy" ==> p.strategy == v)
       && (k == "client_order_id" ==> p.clientOrderID == v)
  }

  lemma AcceptsPermutations(a: string, b: string, c: string)
    requires ';' !in a && ';' !in b && ';' !in c
    ensures ParseParts([a, b, c]).Success? <==> Acceptable(a, b, c)
    ensures ParseParts([a, b, c]).Success? ==>
              var p := ParseParts([a, b, c]).value; ReadsTo(a, p) && ReadsTo(b, p) && ReadsTo(c, p)
  {
    hide ParsePart, Collect;
    Collect3(a, b, c);
    PartsNonEmpty(a);
    PartsNonEmpty(b);
    PartsNonEmpty(c);
    RequiredDistinct();
    if ParsePart(a).Some? && ParsePart(b).Some? && ParsePart(c).Some? {
      var ka, kb, kc := ParsePart(a).value.0, ParsePart(b).value.0, ParsePart(c).value.0;
      if {ka, kb, kc} == {"tenant", "strategy", "client_order_id"} {
        assert "tenant" in {ka, kb, kc} && "strategy" in {ka, kb, kc} && "client_order_id" in {ka, kb, kc};
      }
    }
  }

  lemma SamePartsSameResult(a: string, b: string, c: string, a': string, c': string)
    requires ParsePart(a) == ParsePart(a') && ParsePart(c) == ParsePart(c')
    ensures ParseParts([a, b, c]) == ParseParts([a', b, c'])
  {
    hide ParsePart, Collect;
    Collect3(a, b, c);
    Collect3(a', b, c');
  }

  lemma JoinedTrimmed(a: string, b: string, c: string)
    requires a == [] || !IsSpace(a[0])
    requires c == [] || !IsSpace(c[|c| - 1])
    ensures Trimmed(Join3(a, b, c))
  {
    var s := Join3(a, b, c);
    assert s[0] == if a == [] then ';' else a[0];
    assert s[|s| - 1] == if c == [] then ';' else c[|c| - 1];
  }

  /** White space around the whole text does not matter, so parsing a joined text is parsing its parts. */
  lemma ParseOfJoin(a: string, b: string, c: string)
    requires ';' !in a && ';' !in b && ';' !in c
    ensures Parse(Join3(a, b, c)) == ParseParts([a, b, c])
  {
    hide IsSpace, TrimLeft, TrimRight, TrimSpace, ParseParts, ParsePart, Trimmed, Split;
    var pre := TrimLeftCuts(a);
    var post := TrimRightCuts(c);
    var a', c' := TrimLeft(a), TrimRight(c);
    JoinedTrimmed(a', b, c');
    TrimIs(pre, Join3(a', b, c'), post);
    assert Join3(a, b, c) == pre + Join3(a', b, c') + post;
    assert |Join3(a', b, c')| > 0;
    Split3(a', b, c');
    ParsePartIgnoresSpace(pre, a', []);
    ParsePartIgnoresSpace([], c', post);
    assert pre + a' + [] == a && [] + c' + post == c;
    SamePartsSameResult(a, b, c, a', c');
  }

  /** Splitting undoes joining the other way round too. */
  lemma SplitJoins(s: string)
    requires |Split(s, ';')| == 3
    ensures var parts := Split(s, ';');
            && s == Join3(parts[0], parts[1], parts[2])
            && ';' !in parts[0] && ';' !in parts[1] && ';' !in parts[2]
  {
    hide IndexOf;
    var i := IndexOf(s, ';');
    assert i < |s|;
    var rest := s[i + 1..];
    var j := IndexOf(rest, ';');
    assert Split(s, ';') == [s[..i]] + Split(rest, ';');
    assert j < |rest|;
    var last := rest[j + 1..];
    assert Split(rest, ';') == [rest[..j]] + Split(last, ';');
    assert IndexOf(last, ';') == |last|;
    assert last[..|last|] == last;
    assert s == s[..i] + [';'] + rest && rest == rest[..j] + [';'] + last;
  }

  /** Accepted texts: exactly the joins of acceptable parts. */
  lemma ParserAccepts(s: string)
    ensures Parse(s).Success? <==> exists a, b, c :: s == Join3(a, b, c) && Acceptable(a, b, c)
  {
    hide ParseParts, Split, Acceptable;
    if Parse(s).Success? {
      var a, b, c := AcceptedParts(s);
    }
    if a, b, c :| s == Join3(a, b, c) && Acceptable(a, b, c) {
      AcceptableIsFree(a, b, c);
      ParseOfJoin(a, b, c);
      AcceptsPermutations(a, b, c);
    }
  }

  lemma AcceptableIsFree(a: string, b: string, c: string)
    requires Acceptable(a, b, c)
    ensures ';' !in a && ';' !in b && ';' !in c
  {
    hide ParsePart;
  }

  lemma AcceptedParts(s: string) returns (a: string, b: string, c: string)
    requires Parse(s).Success?
    ensures s == Join3(a, b, c) && Acceptable(a, b, c)
  {
    hide IsSpace, TrimSpace, Trimmed, Split, Acceptable, Collect, Get;
    var pre, post := TrimSplits(s);
    var mid := TrimSpace(s);
    SplitJoins(mid);
    var parts := Split(mid, ';');
    SpaceHasNoSemicolon(pre);
    SpaceHasNoSemicolon(post);
    a, b, c := pre + parts[0], parts[1], parts[2] + post;
    assert s == Join3(a, b, c) by {
      assert pre + Join3(parts[0], b, parts[2]) + post == Join3(a, b, c);
    }
    ParseOfJoin(a, b, c);
    AcceptsPermutations(a, b, c);
  }

  lemma SpaceHasNoSemicolon(s: string)
    requires AllSpace(s)
    ensures ';' !in s
  {
  }

  /** The order of the three parts is irrelevant. */
  lemma PartsInAnyOrder(a: string, b: string, c: string)
    requires ';' !in a && ';' !in b && ';' !in c
    ensures Parse(Join3(a, b, c)) == Parse(Join3(b, a, c))
    ensures Parse(Join3(a, b, c)) == Parse(Join3(a, c, b))
  {
    hide ParseParts, Parse, Join3;
    ParseOfJoin(a, b, c);
    ParseOfJoin(b, a, c);
    ParseOfJoin(a, c, b);
    SwapParts(a, b, c);
  }

  lemma SwapParts(a: string, b: string, c: string)
    requires ';' !in a && ';' !in b && ';' !in c
    ensures ParseParts([a, b, c]) == ParseParts([b, a, c]) == ParseParts([a, c, b])
  {
    hide ParsePart, Parse, ParseParts;
    AcceptsPermutations(a, b, c);
    AcceptsPermutations(b, a, c);
    AcceptsPermutations(a, c, b);
    if ParseParts([a, b, c]).Success? {
      SameReading(a, b, c, ParseParts([a, b, c]).value, ParseParts([b, a, c]).value);
      SameReading(a, b, c, ParseParts([a, b, c]).value, ParseParts([a, c, b]).value);
    }
    OneFailure([a, b, c]);
    OneFailure([b, a, c]);
    OneFailure([a, c, b]);
  }

  lemma OneFailure(parts: seq<string>)
    ensures ParseParts(parts).Success? || ParseParts(parts) == Failure(CanonicalInvalid)
  {
  }

  lemma SameReading(a: string, b: string, c: string, p: Parts, q: Parts)
    requires Acceptable(a, b, c)
    requires ReadsTo(a, p) && ReadsTo(b, p) && ReadsTo(c, p)
    requires ReadsTo(a, q) && ReadsTo(b, q) && ReadsTo(c, q)
    ensures p == q
  {
    hide ParsePart;
    var keys := {ParsePart(a).value.0, ParsePart(b).value.0, ParsePart(c).value.0};
    assert "tenant" in keys && "strategy" in keys && "client_order_id" in keys;
  }

  /** Why a key is not built: the first part missing, in the order tenant, strategy, client order id, or else a length. */
  lemma BuildErrors(input: Input, digest: string -> string)
    ensures var r := Build(input, digest);
            var p := Normalize(input);
            && (r == Failure(TenantRequired) <==> AllSpace(input.tenant))
            && (r == Failure(StrategyRequired) <==> !AllSpace(input.tenant) && AllSpace(input.strategy))
            && (r == Failure(ClientOrderIDRequired) <==>
                  !AllSpace(input.tenant) && !AllSpace(input.strategy) && AllSpace(input.clientOrderID))
            && (r.Success? ==> r.value.version == "v1" && r.value.canonical == Canonical(p)
                               && r.value.digest == digest(Canonical(p)) && r.value.value == "idem:v1:" + r.value.digest)
  {
    hide IsSpace, TrimSpace, ByteLength, Canonical;
    BlankIffAllSpace(input.tenant);
    BlankIffAllSpace(input.strategy);
    BlankIffAllSpace(input.clientOrderID);
  }

  /** A text of ASCII characters is as long in bytes as in characters, and lengths add up. */
  lemma {:induction false} ByteLengthLaws(s: string, t: string)
    ensures ByteLength(s + t) == ByteLength(s) + ByteLength(t)
    ensures (forall i :: 0 <= i < |s| ==> s[i] < '\U{80}') ==> ByteLength(s) == |s|
    ensures ByteLength(s) >= |s|
  {
    if s == [] {
      assert s + t == t;
    } else {
      assert (s + t)[1..] == s[1..] + t;
      ByteLengthLaws(s[1..], t);
    }
  }
}
