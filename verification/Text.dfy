/** Text helpers of the standard library, on sequences of code points. */
module Text {
  import opened Wrappers

  /** White space as the library's trimming sees it (the Unicode White_Space property). */
  predicate IsSpace(c: char) {
    || '\t' <= c <= '\r'
    || c == ' '
    || c == '\U{85}' || c == '\U{A0}' || c == '\U{1680}'
    || '\U{2000}' <= c <= '\U{200A}'
    || c == '\U{2028}' || c == '\U{2029}' || c == '\U{202F}' || c == '\U{205F}' || c == '\U{3000}'
  }

  function TrimLeft(s: string): string {
    if s != [] && IsSpace(s[0]) then TrimLeft(s[1..]) else s
  }

  function TrimRight(s: string): string {
    if s != [] && IsSpace(s[|s| - 1]) then TrimRight(s[..|s| - 1]) else s
  }

  function TrimSpace(s: string): string {
    TrimRight(TrimLeft(s))
  }

  ghost predicate AllSpace(s: string) {
    forall i :: 0 <= i < |s| ==> IsSpace(s[i])
  }

  /** Nothing to trim. */
  predicate Trimmed(s: string) {
    s == [] || (!IsSpace(s[0]) && !IsSpace(s[|s| - 1]))
  }

  /** What the left trim cuts off. */
  lemma {:induction false} TrimLeftCuts(s: string) returns (pre: string)
    ensures s == pre + TrimLeft(s) && AllSpace(pre)
    ensures TrimLeft(s) != [] ==> !IsSpace(TrimLeft(s)[0])
  {
    if s != [] && IsSpace(s[0]) {
      var rest := TrimLeftCuts(s[1..]);
      pre := [s[0]] + rest;
    } else {
      pre := [];
    }
  }

  lemma {:induction false} TrimRightCuts(s: string) returns (post: string)
    ensures s == TrimRight(s) + post && AllSpace(post)
    ensures TrimRight(s) != [] ==> !IsSpace(TrimRight(s)[|TrimRight(s)| - 1])
  {
    if s != [] && IsSpace(s[|s| - 1]) {
      var rest := TrimRightCuts(s[..|s| - 1]);
      post := rest + [s[|s| - 1]];
    } else {
      post := [];
    }
  }

  lemma {:induction false} TrimLeftSkips(pre: string, rest: string)
    requires AllSpace(pre)
    ensures TrimLeft(pre + rest) == TrimLeft(rest)
  {
    if pre == [] {
      assert pre + rest == rest;
    } else {
      assert (pre + rest)[1..] == pre[1..] + rest;
      TrimLeftSkips(pre[1..], rest);
    }
  }

  lemma {:induction false} TrimRightSkips(rest: string, post: string)
    requires AllSpace(post)
    ensures TrimRight(rest + post) == TrimRight(rest)
  {
    if post == [] {
      assert rest + post == rest;
    } else {
      var n := |post| - 1;
      assert (rest + post)[..|rest| + n] == rest + post[..n];
      TrimRightSkips(rest, post[..n]);
    }
  }

  /** Every text is white space around its trimmed core. */
  lemma TrimSplits(s: string) returns (pre: string, post: string)
    ensures s == pre + TrimSpace(s) + post && AllSpace(pre) && AllSpace(post) && Trimmed(TrimSpace(s))
  {
    hide IsSpace, TrimLeft, TrimRight;
    pre := TrimLeftCuts(s);
    post := TrimRightCuts(TrimLeft(s));
    var mid := TrimRight(TrimLeft(s));
    if mid != [] {
      assert TrimLeft(s)[0] == mid[0];
    }
  }

  /** Surrounding white space is all that trimming removes. */
  lemma TrimIs(pre: string, mid: string, post: string)
    requires AllSpace(pre) && AllSpace(post) && Trimmed(mid)
    ensures TrimSpace(pre + mid + post) == mid
  {
    hide IsSpace, AllSpace;
    assert pre + mid + post == pre + (mid + post);
    TrimLeftSkips(pre, mid + post);
    if mid == [] {
      assert mid + post == post + [];
      TrimLeftSkips(post, []);
    } else {
      assert (mid + post)[0] == mid[0];
      TrimRightSkips(mid, post);
    }
  }

  lemma TrimSpaceTrims(s: string)
    ensures Trimmed(TrimSpace(s))
  {
    hide *;
    var _, _ := TrimSplits(s);
  }

  lemma TrimSpaceKeeps(s: string)
    requires Trimmed(s)
    ensures TrimSpace(s) == s
  {
    hide IsSpace;
  }

  function Lower(c: char): char {
    if 'A' <= c <= 'Z' then c + ' ' else c
  }

  function Upper(c: char): char {
    if 'a' <= c <= 'z' then c - ' ' else c
  }

  function ToLower(s: string): string {
    seq(|s|, i requires 0 <= i < |s| => Lower(s[i]))
  }

  function ToUpper(s: string): string {
    seq(|s|, i requires 0 <= i < |s| => Upper(s[i]))
  }

  lemma ToLowerKeepsTrimmed(s: string)
    requires Trimmed(s)
    ensures Trimmed(ToLower(s))
  {
  }

  predicate IsDigit(c: char) {
    '0' <= c <= '9'
  }

  function DigitsValue(s: string): int {
    if s == [] then 0 else 10 * DigitsValue(s[..|s| - 1]) + (s[|s| - 1] as int - '0' as int)
  }

  predicate AllDigits(s: string) {
    s != [] && forall i :: 0 <= i < |s| ==> IsDigit(s[i])
  }

  /** A base-ten integer with an optional sign. */
  function ParseInteger(text: string): Option<int> {
    var signed := text != "" && (text[0] == '-' || text[0] == '+');
    var digits := if signed then text[1..] else text;
    if !AllDigits(digits) then None
    else Some(if text[0] == '-' then -DigitsValue(digits) else DigitsValue(digits))
  }

  /** Numbers written out. */
  function DecimalText(n: nat): string {
    if n < 10 then ['0' + n as char] else DecimalText(n / 10) + ['0' + (n % 10) as char]
  }

  lemma {:induction false} DecimalTextReadsBack(n: nat)
    ensures |DecimalText(n)| > 0 && '#' !in DecimalText(n)
    ensures DigitsValue(DecimalText(n)) == n
  {
    if n >= 10 {
      DecimalTextReadsBack(n / 10);
      var text := DecimalText(n);
      assert text[..|text| - 1] == DecimalText(n / 10);
    } else {
      assert DigitsValue([]) == 0;
      var text := DecimalText(n);
      assert text[..|text| - 1] == [];
    }
  }

  lemma {:induction false} DecimalTextIsDigits(n: nat)
    ensures AllDigits(DecimalText(n))
  {
    if n < 10 {
    } else {
      DecimalTextIsDigits(n / 10);
    }
  }

  /** Reading undoes writing, with either sign or none. */
  lemma ParsesWhatIsWritten(n: nat)
    ensures ParseInteger(DecimalText(n)) == Some(n)
    ensures ParseInteger(['+'] + DecimalText(n)) == Some(n)
    ensures ParseInteger(['-'] + DecimalText(n)) == Some(-(n as int))
  {
    hide DecimalText, DigitsValue;
    DecimalTextIsDigits(n);
    DecimalTextReadsBack(n);
    var text := DecimalText(n);
    assert IsDigit(text[0]);
    assert (['+'] + text)[1..] == text && (['-'] + text)[1..] == text;
  }

  /** Only digits after at most one sign are read. */
  lemma ParsesDigitsOnly(text: string)
    ensures ParseInteger(text).Some? <==>
              AllDigits(text) || (text != [] && (text[0] == '-' || text[0] == '+') && AllDigits(text[1..]))
  {
    hide DigitsValue;
  }

  predicate NoUpper(s: string) {
    forall i :: 0 <= i < |s| ==> !('A' <= s[i] <= 'Z')
  }

  predicate NoLower(s: string) {
    forall i :: 0 <= i < |s| ==> !('a' <= s[i] <= 'z')
  }

  /** Lowering leaves no capitals and changes nothing but case; raising likewise. */
  lemma CaseLaws(s: string)
    ensures NoUpper(ToLower(s)) && NoLower(ToUpper(s))
    ensures ToUpper(ToLower(s)) == ToUpper(s) && ToLower(ToUpper(s)) == ToLower(s)
    ensures NoUpper(s) ==> ToLower(s) == s
    ensures NoLower(s) ==> ToUpper(s) == s
  {
    assert forall i :: 0 <= i < |s| ==> Upper(Lower(s[i])) == Upper(s[i]) && Lower(Upper(s[i])) == Lower(s[i]);
  }

  /** Letters keep their place in the alphabet. */
  lemma LettersKeepPlace(k: nat)
    requires k < 26
    ensures ToLower(['A' + k as char]) == ['a' + k as char] && ToUpper(['a' + k as char]) == ['A' + k as char]
  {
  }

  /** What trims away and what does not. */
  lemma SpaceAndNot(c: char)
    ensures c == ' ' || c == '\t' || c == '\n' || c == '\r' || c == '\U{B}' || c == '\U{C}' || c == '\U{85}' || c == '\U{A0}' ==> IsSpace(c)
    ensures '!' <= c <= '~' ==> !IsSpace(c)
  {
  }

  lemma BlankIffAllSpace(s: string)
    ensures TrimSpace(s) == "" <==> AllSpace(s)
  {
    hide IsSpace, TrimLeft, TrimRight;
    var pre, post := TrimSplits(s);
    if AllSpace(s) {
      TrimIs(s, [], []);
      assert s + [] + [] == s;
    }
  }
}
