/**
 * The Python string operations the handlers rely on: prefix and suffix tests,
 * `in` on strings, ASCII `lower()`, `lstrip`, `strip()`, `split(',')`,
 * `os.path.basename`, `os.path.splitext`, and `str(int)` / `int(str)`.
 */
module Text {
  import opened Wrappers

  predicate StartsWith(s: string, prefix: string) {
    |prefix| <= |s| && s[..|prefix|] == prefix
  }

  predicate EndsWith(s: string, suffix: string) {
    |suffix| <= |s| && s[|s| - |suffix|..] == suffix
  }

  /** Python's `sub in s` on two strings. */
  predicate Contains(s: string, sub: string)
    decreases |s|
  {
    StartsWith(s, sub) || (|s| > 0 && Contains(s[1..], sub))
  }

  /** `str.lower()` restricted to ASCII letters. */
  function LowerChar(c: char): char {
    if 'A' <= c <= 'Z' then (c as int + 32) as char else c
  }

  function Lower(s: string): string {
    seq(|s|, i requires 0 <= i < |s| => LowerChar(s[i]))
  }

  /** `s.lstrip(c)` for a single character `c`. */
  function LStrip(s: string, c: char): (r: string)
    ensures |r| <= |s| && r == s[|s| - |r|..]
    ensures |r| > 0 ==> r[0] != c
    ensures forall i :: 0 <= i < |s| - |r| ==> s[i] == c
    decreases |s|
  {
    if |s| > 0 && s[0] == c then LStrip(s[1..], c) else s
  }

  /** The characters `str.strip()` removes that are ASCII (the Unicode ones are not modelled). */
  predicate IsSpace(c: char) {
    c == ' ' || 9 <= c as int <= 13 || 28 <= c as int <= 31
  }

  function StripLeft(s: string): string
    decreases |s|
  {
    if |s| > 0 && IsSpace(s[0]) then StripLeft(s[1..]) else s
  }

  function StripRight(s: string): string
    decreases |s|
  {
    if |s| > 0 && IsSpace(s[|s| - 1]) then StripRight(s[..|s| - 1]) else s
  }

  /** `str.strip()` with no argument. */
  function Strip(s: string): string {
    StripRight(StripLeft(s))
  }

  /** `s.find(c)`: the first index of `c`, or -1. */
  function Find(s: string, c: char): (i: int)
    ensures -1 <= i < |s|
    ensures i >= 0 ==> s[i] == c
    ensures forall j :: 0 <= j < |s| && (i < 0 || j < i) ==> s[j] != c
    decreases |s|
  {
    if |s| == 0 then -1
    else if s[0] == c then 0
    else var k := Find(s[1..], c); if k < 0 then -1 else k + 1
  }

  /** `s.rfind(c)`: the last index of `c`, or -1. */
  function RFind(s: string, c: char): (i: int)
    ensures -1 <= i < |s|
    ensures i >= 0 ==> s[i] == c
    ensures forall j :: i < j < |s| ==> s[j] != c
    decreases |s|
  {
    if |s| == 0 then -1
    else if s[|s| - 1] == c then |s| - 1
    else RFind(s[..|s| - 1], c)
  }

  /** `s.split(c)` for a single-character separator. */
  function Split(s: string, c: char): (parts: seq<string>)
    ensures |parts| >= 1
    decreases |s|
  {
    var i := Find(s, c);
    if i < 0 then [s] else [s[..i]] + Split(s[i + 1..], c)
  }

  /** `c.join(parts)`, the inverse of `Split`. */
  function Join(parts: seq<string>, c: char): string
    requires |parts| >= 1
  {
    if |parts| == 1 then parts[0] else parts[0] + [c] + Join(parts[1..], c)
  }

  /** `Split` loses nothing: joining its parts gives the string back, and no part holds the separator. */
  lemma {:induction false} SplitJoin(s: string, c: char)
    ensures Join(Split(s, c), c) == s
    ensures forall k :: 0 <= k < |Split(s, c)| ==> c !in Split(s, c)[k]
    decreases |s|
  {
    var i := Find(s, c);
    if i >= 0 {
      SplitJoin(s[i + 1..], c);
      assert s == s[..i] + [c] + s[i + 1..];
      forall k | 0 <= k < |Split(s, c)| ensures c !in Split(s, c)[k] {
        if k > 0 {
          assert Split(s, c)[k] == Split(s[i + 1..], c)[k - 1];
        }
      }
    }
  }

  /** One more field than separators: a line with `n` commas splits into `n + 1` fields. */
  lemma {:induction false} SplitCount(s: string, c: char)
    ensures |Split(s, c)| == CountChar(s, c) + 1
    decreases |s|
  {
    var i := Find(s, c);
    if i >= 0 {
      SplitCount(s[i + 1..], c);
      CountCharAppend(s[..i + 1], s[i + 1..], c);
      CountCharNone(s[..i], c);
      CountCharAppend(s[..i], [c], c);
      assert s[..i + 1] == s[..i] + [c];
      assert s == s[..i + 1] + s[i + 1..];
    } else {
      CountCharNone(s, c);
    }
  }

  function CountChar(s: string, c: char): nat
    decreases |s|
  {
    if |s| == 0 then 0 else (if s[0] == c then 1 else 0) + CountChar(s[1..], c)
  }

  lemma {:induction false} CountCharAppend(a: string, b: string, c: char)
    ensures CountChar(a + b, c) == CountChar(a, c) + CountChar(b, c)
    decreases |a|
  {
    if |a| > 0 {
      assert (a + b)[1..] == a[1..] + b;
      CountCharAppend(a[1..], b, c);
    } else {
      assert a + b == b;
    }
  }

  lemma {:induction false} CountCharNone(s: string, c: char)
    requires forall j :: 0 <= j < |s| ==> s[j] != c
    ensures CountChar(s, c) == 0
    decreases |s|
  {
    if |s| > 0 {
      CountCharNone(s[1..], c);
    }
  }

  /** `os.path.basename`: everything after the last '/'. */
  function Basename(p: string): (b: string)
    ensures '/' !in b
    ensures EndsWith(p, b)
  {
    var i := RFind(p, '/');
    var b := p[i + 1..];
    assert '/' !in b by {
      forall j | 0 <= j < |b| ensures b[j] != '/' {
        assert b[j] == p[i + 1 + j];
      }
    }
    assert EndsWith(p, b);
    b
  }

  /**
   * `os.path.splitext` (POSIX): the extension starts at the last '.', provided
   * that dot lies in the last path component and some character before it in
   * that component is not a dot; otherwise the extension is empty.
   */
  function SplitExt(p: string): (r: (string, string))
    ensures r.0 + r.1 == p
    ensures r.1 == "" || (r.1[0] == '.' && '/' !in r.1 && '.' !in r.1[1..])
  {
    var sep := RFind(p, '/');
    var dot := RFind(p, '.');
    if dot > sep && exists k :: sep + 1 <= k < dot && p[k] != '.' then
      var e := p[dot..];
      assert forall j :: 0 <= j < |e| ==> e[j] == p[dot + j];
      (p[..dot], e)
    else
      (p, "")
  }

  function Stem(p: string): string {
    SplitExt(p).0
  }

  function Ext(p: string): string {
    SplitExt(p).1
  }

  /**
   * A file name `name + "." + e`, where `name` has no '/' and is not all dots
   * and `e` has neither '.' nor '/', splits back into `name` and `"." + e`.
   */
  lemma SplitExtOfName(name: string, e: string)
    requires '/' !in name && '/' !in e && '.' !in e
    requires exists k :: 0 <= k < |name| && name[k] != '.'
    ensures SplitExt(name + "." + e) == (name, "." + e)
  {
    var p := name + "." + e;
    var dot := RFind(p, '.');
    assert p[|name|] == '.';
    assert dot == |name| by {
      assert forall j :: |name| < j < |p| ==> p[j] == e[j - |name| - 1];
    }
    var sep := RFind(p, '/');
    assert sep == -1 by {
      assert forall j :: 0 <= j < |p| ==> p[j] != '/' by {
        forall j | 0 <= j < |p| ensures p[j] != '/' {
          if j < |name| { assert p[j] == name[j]; } else if j > |name| { assert p[j] == e[j - |name| - 1]; }
        }
      }
    }
    var k :| 0 <= k < |name| && name[k] != '.';
    assert p[k] == name[k];
    assert 0 <= k < dot && p[k] != '.';
    assert p[..dot] == name;
    assert p[dot..] == "." + e;
  }

  /** The basename of `dir + "/" + file` is `file` when `file` has no '/'. */
  lemma BasenameOfPath(dir: string, file: string)
    requires '/' !in file
    ensures Basename(dir + "/" + file) == file
  {
    var p := dir + "/" + file;
    assert p[|dir|] == '/';
    assert forall j :: |dir| < j < |p| ==> p[j] == file[j - |dir| - 1];
    assert p[|dir| + 1..] == file;
  }

  function DigitChar(d: nat): char
    requires d < 10
  {
    ('0' as int + d) as char
  }

  predicate IsDigit(c: char) {
    '0' <= c <= '9'
  }

  /** `str(n)` for a natural number. */
  function NatToString(n: nat): (s: string)
    ensures |s| >= 1 && forall i :: 0 <= i < |s| ==> IsDigit(s[i])
    decreases n
  {
    if n < 10 then [DigitChar(n)] else NatToString(n / 10) + [DigitChar(n % 10)]
  }

  /** `str(i)` for an integer. */
  function IntToString(i: int): string {
    if i < 0 then "-" + NatToString(-i) else NatToString(i)
  }

  /** Python's `int()` of a float: truncation toward zero. */
  function Truncate(x: real): int {
    if x >= 0.0 then x.Floor else -((-x).Floor)
  }

  /** A non-empty run of decimal digits, read as a number. */
  function ParseNat(s: string): Option<nat>
    decreases |s|
  {
    if |s| == 0 || !IsDigit(s[|s| - 1]) then None
    else
      var d := s[|s| - 1] as int - '0' as int;
      if |s| == 1 then Some(d)
      else match ParseNat(s[..|s| - 1])
        case None => None
        case Some(v) => Some(v * 10 + d)
  }

  /** `int(s)` for an optional sign followed by digits. */
  function ParseInt(s: string): Option<int> {
    if |s| > 0 && (s[0] == '-' || s[0] == '+') then
      match ParseNat(s[1..])
      case None => None
      case Some(v) => var i: int := if s[0] == '-' then -(v as int) else v; Some(i)
    else
      match ParseNat(s)
      case None => None
      case Some(v) => Some(v)
  }

  /** Reading back what `str(n)` wrote gives `n`. */
  lemma {:induction false} ParseNatToString(n: nat)
    ensures ParseNat(NatToString(n)) == Some(n)
    decreases n
  {
    var s := NatToString(n);
    if n >= 10 {
      ParseNatToString(n / 10);
      assert s[..|s| - 1] == NatToString(n / 10);
      assert s[|s| - 1] == DigitChar(n % 10);
    }
  }

  lemma ParseIntToString(i: int)
    ensures ParseInt(IntToString(i)) == Some(i)
  {
    var s := IntToString(i);
    if i < 0 {
      ParseNatToString(-i);
      assert s[0] == '-' && s[1..] == NatToString(-i);
    } else {
      ParseNatToString(i);
      assert IsDigit(s[0]);
      assert s[0] != '-' && s[0] != '+';
    }
  }
}
