/**
 * The pieces of Python's text handling that decide which directory entries
 * are manifests and how bundle timestamps are written back out:
 * `PurePath.suffix`, `PurePath.stem`, `int(str)` and `str(int)`.
 * Only the ASCII range is modelled (see README).
 */
module PyText {
  import opened Wrappers

  /**
   * The white space `int()` skips around ASCII text: tab, line feed,
   * vertical tab, form feed, carriage return and space. The separators
   * U+001C to U+001F, which `str.isspace()` also accepts, are not skipped.
   */
  predicate IsSpace(c: char) {
    ('\t' <= c <= '\r') || c == ' '
  }

  predicate IsDigit(c: char) {
    '0' <= c <= '9'
  }

  function DigitValue(c: char): (d: nat)
    requires IsDigit(c)
    ensures d < 10
  {
    c as int - '0' as int
  }

  function DigitChar(d: nat): (c: char)
    requires d < 10
    ensures IsDigit(c) && DigitValue(c) == d
  {
    ('0' as int + d) as char
  }

  // ---------------------------------------------------------------------
  // The white space around the text of int(s)

  function TrimStart(s: string): (r: string)
    ensures |r| <= |s| && r == s[|s| - |r|..]
    ensures r == [] || !IsSpace(r[0])
    ensures forall i :: 0 <= i < |s| - |r| ==> IsSpace(s[i])
  {
    if s != [] && IsSpace(s[0]) then
      var r := TrimStart(s[1..]);
      assert s[1..][|s| - 1 - |r|..] == s[|s| - |r|..];
      r
    else s
  }

  function TrimEnd(s: string): (r: string)
    ensures |r| <= |s| && r == s[..|r|]
    ensures r == [] || !IsSpace(r[|r| - 1])
    ensures forall i :: |r| <= i < |s| ==> IsSpace(s[i])
  {
    if s != [] && IsSpace(s[|s| - 1]) then TrimEnd(s[..|s| - 1]) else s
  }

  /** What `int()` ignores: the longest infix of `s` that neither starts nor ends with white space. */
  function Strip(s: string): (r: string)
    ensures r == [] || (!IsSpace(r[0]) && !IsSpace(r[|r| - 1]))
  {
    TrimEnd(TrimStart(s))
  }

  // ---------------------------------------------------------------------
  // int(s) in base 10

  predicate DigitsOrUnderscores(d: string) {
    forall i :: 0 <= i < |d| ==> IsDigit(d[i]) || d[i] == '_'
  }

  /** A run of decimal digits in which single underscores may separate digits ("1_000"). */
  predicate IsDigitGroup(d: string) {
    && |d| > 0
    && IsDigit(d[0])
    && IsDigit(d[|d| - 1])
    && DigitsOrUnderscores(d)
    && forall i :: 0 <= i < |d| - 1 && d[i] == '_' ==> IsDigit(d[i + 1])
  }

  /** The number a digit group denotes; underscores carry no value. */
  function GroupValue(d: string): nat
    requires DigitsOrUnderscores(d)
  {
    if d == [] then 0
    else if d[|d| - 1] == '_' then GroupValue(d[..|d| - 1])
    else 10 * GroupValue(d[..|d| - 1]) + DigitValue(d[|d| - 1])
  }

  /**
   * `int(s)`: surrounding white space, then an optional sign, then a digit
   * group; `None` where Python raises `ValueError`.
   */
  function ParseInt(s: string): (r: Option<int>)
    ensures r.Some? ==> exists k :: 0 <= k < |s| && IsDigit(s[k])
  {
    var t := Strip(s);
    var r := ParseSigned(t);
    if r.Some? then
      assert IsDigit(t[|t| - 1]);
      assert t == s[|s| - |TrimStart(s)|..][..|t|];
      assert s[|s| - |TrimStart(s)| + |t| - 1] == t[|t| - 1];
      r
    else r
  }

  /** `int()` on text without surrounding white space: an optional sign, then a digit group. */
  function ParseSigned(t: string): (r: Option<int>)
    ensures r.Some? ==> |t| > 0 && IsDigit(t[|t| - 1])
  {
    if |t| > 0 && (t[0] == '+' || t[0] == '-') then
      if IsDigitGroup(t[1..]) then
        var n: int := GroupValue(t[1..]);
        Some(if t[0] == '-' then -n else n)
      else None
    else if IsDigitGroup(t) then Some(GroupValue(t))
    else None
  }

  /** Every character is white space. */
  predicate AllSpace(s: string) {
    forall i :: 0 <= i < |s| ==> IsSpace(s[i])
  }

  lemma {:induction false} TrimStartPadded(pre: string, t: string)
    requires AllSpace(pre) && t != [] && !IsSpace(t[0])
    ensures TrimStart(pre + t) == t
  {
    if pre == [] {
      assert pre + t == t;
    } else {
      assert (pre + t)[1..] == pre[1..] + t;
      TrimStartPadded(pre[1..], t);
    }
  }

  lemma {:induction false} TrimEndPadded(t: string, post: string)
    requires AllSpace(post) && t != [] && !IsSpace(t[|t| - 1])
    ensures TrimEnd(t + post) == t
  {
    if post == [] {
      assert t + post == t;
    } else {
      var front := post[..|post| - 1];
      assert (t + post)[..|t + post| - 1] == t + front;
      TrimEndPadded(t, front);
    }
  }

  /** `Strip` removes exactly the white space around a text that neither starts nor ends with it. */
  lemma StripPadded(pre: string, t: string, post: string)
    requires AllSpace(pre) && AllSpace(post)
    requires t != [] && !IsSpace(t[0]) && !IsSpace(t[|t| - 1])
    ensures Strip(pre + t + post) == t
  {
    assert (t + post)[0] == t[0];
    TrimStartPadded(pre, t + post);
    AppendAssoc(pre, t, post);
    TrimEndPadded(t, post);
  }

  lemma TrimStartShape(s: string) returns (pre: string)
    ensures s == pre + TrimStart(s) && AllSpace(pre)
  {
    var u := TrimStart(s);
    pre := s[..|s| - |u|];
    assert s == pre + u;
    forall i | 0 <= i < |pre| ensures IsSpace(pre[i]) {
      assert pre[i] == s[i];
    }
  }

  lemma TrimEndShape(u: string) returns (post: string)
    ensures u == TrimEnd(u) + post && AllSpace(post)
  {
    var t := TrimEnd(u);
    post := u[|t|..];
    assert u == t + post;
    forall i | 0 <= i < |post| ensures IsSpace(post[i]) {
      assert post[i] == u[|t| + i];
    }
  }

  /** Any text is white space, its `Strip`, then white space. */
  lemma StripShape(s: string) returns (pre: string, post: string)
    ensures s == pre + Strip(s) + post
    ensures AllSpace(pre) && AllSpace(post)
  {
    pre := TrimStartShape(s);
    post := TrimEndShape(TrimStart(s));
    AppendAssoc(pre, Strip(s), post);
  }

  /** The value of a digit group after a sign: negated after '-'. */
  function SignedValue(sign: string, digits: string): int
    requires DigitsOrUnderscores(digits)
  {
    var n: int := GroupValue(digits);
    if sign == "-" then -n else n
  }

  /** The value of a sign ("", "+" or "-") followed by a digit group. */
  lemma SignedGroup(sign: string, digits: string)
    requires sign == "" || sign == "+" || sign == "-"
    requires IsDigitGroup(digits)
    ensures ParseSigned(sign + digits) == Some(SignedValue(sign, digits))
  {
    var t := sign + digits;
    if sign == "" {
      assert t == digits;
    } else {
      assert t[1..] == digits;
    }
  }

  /**
   * `int()` accepts white space, an optional sign, a digit group and white
   * space; the value is the group's, negated after a '-'.
   */
  lemma ParseIntAccepts(pre: string, sign: string, digits: string, post: string)
    requires AllSpace(pre) && AllSpace(post)
    requires sign == "" || sign == "+" || sign == "-"
    requires IsDigitGroup(digits)
    ensures ParseInt(pre + sign + digits + post) == Some(SignedValue(sign, digits))
  {
    var t := sign + digits;
    assert t[|t| - 1] == digits[|digits| - 1];
    StripPadded(pre, t, post);
    AppendAssoc(pre, sign, digits);
    SignedGroup(sign, digits);
  }

  /**
   * Conversely, every text `int()` accepts has that shape, so any other
   * text ("1.5", "0x1f", "1__0", "") raises `ValueError`.
   */
  lemma ParseIntShape(s: string) returns (pre: string, sign: string, digits: string, post: string)
    requires ParseInt(s).Some?
    ensures s == pre + sign + digits + post
    ensures AllSpace(pre) && AllSpace(post)
    ensures sign == "" || sign == "+" || sign == "-"
    ensures IsDigitGroup(digits)
    ensures ParseInt(s) == Some(SignedValue(sign, digits))
  {
    pre, post := StripShape(s);
    var t := Strip(s);
    if |t| > 0 && (t[0] == '+' || t[0] == '-') {
      sign, digits := t[..1], t[1..];
    } else {
      sign, digits := "", t;
    }
    assert t == sign + digits;
    SignedGroup(sign, digits);
    AppendAssoc(pre, sign, digits);
  }

  lemma AppendAssoc<T>(a: seq<T>, b: seq<T>, c: seq<T>)
    ensures a + b + c == a + (b + c)
  {
  }

  // ---------------------------------------------------------------------
  // str(n)

  function ShowNat(n: nat): (r: string)
    ensures |r| > 0 && forall i :: 0 <= i < |r| ==> IsDigit(r[i])
  {
    if n < 10 then [DigitChar(n)] else ShowNat(n / 10) + [DigitChar(n % 10)]
  }

  /** `str(n)`: the canonical decimal spelling, with a leading '-' for negatives. */
  function ShowInt(n: int): (r: string)
    ensures |r| > 0 && IsDigit(r[|r| - 1])
    ensures r[0] == '-' || IsDigit(r[0])
    ensures forall i :: 0 <= i < |r| ==> r[i] == '-' || IsDigit(r[i])
  {
    if n < 0 then "-" + ShowNat(-n) else ShowNat(n)
  }

  /** A string that neither starts nor ends with white space is its own `Strip`. */
  lemma StripUnpadded(s: string)
    requires s != [] && !IsSpace(s[0]) && !IsSpace(s[|s| - 1])
    ensures Strip(s) == s
  {
    assert TrimStart(s) == s;
  }

  lemma {:induction false} GroupValueOfShowNat(n: nat)
    ensures IsDigitGroup(ShowNat(n)) && GroupValue(ShowNat(n)) == n
  {
    if n >= 10 {
      var s := ShowNat(n);
      assert s[..|s| - 1] == ShowNat(n / 10);
      GroupValueOfShowNat(n / 10);
    }
  }

  /** A leading information separator is not white space to `int()`: "\x1c1000" raises `ValueError`. */
  lemma SeparatorNotSkipped()
    ensures ParseInt("\U{1C}1000") == None
  {
    StripUnpadded("\U{1C}1000");
  }

  /** `int(str(n)) == n`: every timestamp spelled by `str` reads back as itself. */
  lemma ParseShowRoundTrip(n: int)
    ensures ParseInt(ShowInt(n)) == Some(n)
  {
    var s := ShowInt(n);
    StripUnpadded(s);
    if n < 0 {
      GroupValueOfShowNat(-n);
      SignedGroup("-", ShowNat(-n));
    } else {
      GroupValueOfShowNat(n);
      assert s == "" + ShowNat(n);
      SignedGroup("", ShowNat(n));
    }
  }

  /** Distinct timestamps are spelled differently, so `str(ts)` keys never collide. */
  lemma ShowIntInjective()
    ensures forall a, b :: ShowInt(a) == ShowInt(b) ==> a == b
  {
    forall a, b | ShowInt(a) == ShowInt(b) ensures a == b {
      ParseShowRoundTrip(a);
      ParseShowRoundTrip(b);
    }
  }

  // ---------------------------------------------------------------------
  // PurePath.suffix and PurePath.stem

  /** `name.rfind('.')`: the index of the last dot, or -1. */
  function LastDot(name: string): (r: int)
    ensures -1 <= r < |name|
    ensures r >= 0 ==> name[r] == '.'
    ensures forall i :: r < i < |name| ==> name[i] != '.'
  {
    if name == [] then -1
    else if name[|name| - 1] == '.' then |name| - 1
    else LastDot(name[..|name| - 1])
  }

  /** `PurePath(name).suffix`: the final dotted part, unless the dot leads or ends the name. */
  function Suffix(name: string): (r: string)
    ensures r == [] || (r[0] == '.' && |r| >= 2 && name == Stem(name) + r)
    ensures r == [] ==> Stem(name) == name
  {
    var i := LastDot(name);
    if 0 < i < |name| - 1 then name[i..] else ""
  }

  /** `PurePath(name).stem`: the name without its suffix. */
  function Stem(name: string): string {
    var i := LastDot(name);
    if 0 < i < |name| - 1 then name[..i] else name
  }

  /**
   * An entry counts as a manifest by name exactly when it ends in ".json"
   * after at least one other character; its stem is what precedes ".json".
   */
  lemma JsonSuffixShape(name: string)
    ensures Suffix(name) == ".json" <==> |name| > 5 && name[|name| - 5..] == ".json"
    ensures Suffix(name) == ".json" ==> Stem(name) == name[..|name| - 5]
  {
    if |name| > 5 && name[|name| - 5..] == ".json" {
      assert name[|name| - 5] == '.';
      assert forall i :: |name| - 5 < i < |name| ==> name[i] == name[|name| - 5..][i - (|name| - 5)];
      assert LastDot(name) == |name| - 5;
    }
  }

  /** The file `str(ts) + ".json"` is recognised as the manifest of bundle `ts`. */
  lemma ManifestNameRoundTrip(ts: int)
    ensures Suffix(ShowInt(ts) + ".json") == ".json"
    ensures ParseInt(Stem(ShowInt(ts) + ".json")) == Some(ts)
  {
    var name := ShowInt(ts) + ".json";
    JsonSuffixShape(name);
    assert name[|name| - 5..] == ".json";
    assert name[..|name| - 5] == ShowInt(ts);
    ParseShowRoundTrip(ts);
  }
}
