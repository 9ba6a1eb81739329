/**
 * The binning setting "AxB": Python's `str.lower`, `str.split('x')`, the
 * parse of the two fields, and the rendering `f"{x:d}x{y:d}"`.
 */
module Binning {
  import opened Options
  import opened Decimal

  predicate IsUpper(c: char) { 'A' <= c <= 'Z' }

  predicate IsLower(c: char) { 'a' <= c <= 'z' }

  /** `str.lower` on one character; only ASCII letters are mapped. */
  function LowerChar(c: char): char
  {
    if IsUpper(c) then (c as int - 'A' as int + 'a' as int) as char else c
  }

  /**
   * `str.lower` restricted to ASCII: no upper-case letter is left, each one
   * becomes the lower-case letter at the same place in the alphabet, and
   * every other character is kept.
   */
  function Lower(s: string): (r: string)
    ensures |r| == |s|
    ensures forall i :: 0 <= i < |r| ==> !IsUpper(r[i])
    ensures forall i :: 0 <= i < |s| && IsUpper(s[i]) ==>
      IsLower(r[i]) && r[i] as int - 'a' as int == s[i] as int - 'A' as int
    ensures forall i :: 0 <= i < |s| && !IsUpper(s[i]) ==> r[i] == s[i]
  {
    seq(|s|, i requires 0 <= i < |s| => LowerChar(s[i]))
  }

  /** Python's `s.split(sep)` for a one-character separator. */
  function Split(s: string, sep: char): (parts: seq<string>)
    ensures |parts| >= 1
    ensures forall p <- parts :: sep !in p
    decreases |s|
  {
    if s == [] then [[]]
    else
      var rest := Split(s[1..], sep);
      if s[0] == sep then [[]] + rest else [[s[0]] + rest[0]] + rest[1..]
  }

  /** Python's `sep.join(parts)`, the inverse of `Split`. */
  function Join(parts: seq<string>, sep: char): string
    requires |parts| >= 1
    decreases |parts|
  {
    if |parts| == 1 then parts[0] else parts[0] + [sep] + Join(parts[1..], sep)
  }

  /** Joining the pieces of a split gives the original string back. */
  lemma {:induction false} JoinSplit(s: string, sep: char)
    ensures Join(Split(s, sep), sep) == s
    decreases |s|
  {
    if s != [] {
      var tail := s[1..];
      var rest := Split(tail, sep);
      JoinSplit(tail, sep);
      assert s == [s[0]] + tail;
      if s[0] == sep {
        JoinCons([], rest, sep);
      } else if |rest| == 1 {
        assert Split(s, sep) == [[s[0]] + rest[0]];
      } else {
        assert rest == [rest[0]] + rest[1..];
        JoinCons(rest[0], rest[1..], sep);
        JoinCons([s[0]] + rest[0], rest[1..], sep);
      }
    }
  }

  lemma JoinCons(p: string, rest: seq<string>, sep: char)
    requires |rest| >= 1
    ensures Join([p] + rest, sep) == p + [sep] + Join(rest, sep)
  {
    assert ([p] + rest)[1..] == rest;
  }

  /** Splitting `a + t` where `a` holds no separator extends the first piece of `t`'s split. */
  lemma {:induction false} SplitPrefix(a: string, t: string, sep: char)
    requires sep !in a
    ensures Split(a + t, sep) == [a + Split(t, sep)[0]] + Split(t, sep)[1..]
    decreases |a|
  {
    if a != [] {
      var st := Split(t, sep);
      SplitPrefix(a[1..], t, sep);
      assert (a + t)[1..] == a[1..] + t;
      assert a[0] != sep && (a + t)[0] == a[0];
      var rest := Split(a[1..] + t, sep);
      assert rest[0] == a[1..] + st[0] && rest[1..] == st[1..];
      assert [a[0]] + rest[0] == a + st[0];
      assert Split(a + t, sep) == [[a[0]] + rest[0]] + rest[1..];
    } else {
      var st := Split(t, sep);
      assert a + t == t && a + st[0] == st[0];
      assert [st[0]] + st[1..] == st;
    }
  }

  /** Splitting the join of separator-free pieces gives the pieces back. */
  lemma {:induction false} SplitJoin(parts: seq<string>, sep: char)
    requires |parts| >= 1
    requires forall p <- parts :: sep !in p
    ensures Split(Join(parts, sep), sep) == parts
    decreases |parts|
  {
    if |parts| == 1 {
      SplitPrefix(parts[0], [], sep);
      assert parts[0] + [] == parts[0];
    } else {
      var rest := parts[1..];
      var t := [sep] + Join(rest, sep);
      SplitJoin(rest, sep);
      SplitAfterSeparator(Join(rest, sep), sep);
      var st := Split(t, sep);
      assert st[0] == [] && st[1..] == rest;
      SplitPrefix(parts[0], t, sep);
      JoinCons(parts[0], rest, sep);
      assert parts == [parts[0]] + rest;
      assert Join(parts, sep) == parts[0] + t;
      assert parts[0] + st[0] == parts[0];
    }
  }

  /** A leading separator closes an empty first piece. */
  lemma SplitAfterSeparator(x: string, sep: char)
    ensures Split([sep] + x, sep) == [[]] + Split(x, sep)
  {
    assert ([sep] + x)[1..] == x;
  }

  predicate IsSeparator(c: char) { c == 'x' || c == 'X' }

  /** `s` is a run of digits, an 'x' or 'X' at position `i`, and another run of digits. */
  predicate SeparatorAt(s: string, i: int)
  {
    && 0 < i < |s| - 1
    && IsSeparator(s[i])
    && AllDigits(s[..i])
    && AllDigits(s[i + 1..])
  }

  /**
   * The string branch of `set_binning`: lower-case the input, split it at
   * 'x' into exactly two fields, and read each as an integer. It succeeds
   * exactly on digits, one 'x' or 'X', digits, and yields the values of the
   * two digit runs.
   */
  function ParseBinningText(s: string): (r: Option<(int, int)>)
    ensures r.Some? <==> exists i :: SeparatorAt(s, i)
    ensures forall i :: SeparatorAt(s, i) ==>
      r == Some((DigitsValue(s[..i]), DigitsValue(s[i + 1..])))
  {
    var fields := Split(Lower(s), 'x');
    SeparatedSplitAll(s);
    if |fields| != 2 then None
    else match (ParseNat(fields[0]), ParseNat(fields[1]))
      case (Some(x), Some(y)) => FieldsSeparated(s); Some((x, y))
      case _ => None
  }

  /** Around a separator at `i`, lower-casing turns it into 'x' and the split yields the two digit runs. */
  lemma SeparatedSplit(s: string, i: int)
    requires SeparatorAt(s, i)
    ensures Lower(s) == s[..i] + "x" + s[i + 1..]
    ensures Split(Lower(s), 'x') == [s[..i], s[i + 1..]]
  {
    var a, b := s[..i], s[i + 1..];
    assert forall j :: 0 <= j < i ==> s[j] == a[j] && IsDigit(a[j]);
    assert forall j :: i < j < |s| ==> s[j] == b[j - i - 1] && IsDigit(b[j - i - 1]);
    assert Lower(s) == a + "x" + b;
    assert 'x' !in a && 'x' !in b by {
      assert forall j :: 0 <= j < |a| ==> a[j] != 'x';
      assert forall j :: 0 <= j < |b| ==> b[j] != 'x';
    }
    assert Join([a, b], 'x') == a + "x" + b;
    SplitJoin([a, b], 'x');
  }

  lemma SeparatedSplitAll(s: string)
    ensures forall i :: SeparatorAt(s, i) ==>
      Lower(s) == s[..i] + "x" + s[i + 1..] && Split(Lower(s), 'x') == [s[..i], s[i + 1..]]
  {
    forall i | SeparatorAt(s, i)
      ensures Lower(s) == s[..i] + "x" + s[i + 1..] && Split(Lower(s), 'x') == [s[..i], s[i + 1..]]
    {
      SeparatedSplit(s, i);
    }
  }

  /** Two non-empty digit fields after the split mean the input has a separator right after the first. */
  lemma FieldsSeparated(s: string)
    requires |Split(Lower(s), 'x')| == 2
    requires ParseNat(Split(Lower(s), 'x')[0]).Some? && ParseNat(Split(Lower(s), 'x')[1]).Some?
    ensures SeparatorAt(s, |Split(Lower(s), 'x')[0]|)
  {
    var l := Lower(s);
    var fields := Split(l, 'x');
    var f0, f1 := fields[0], fields[1];
    var i := |f0|;
    JoinSplit(l, 'x');
    assert l == f0 + ['x'] + f1;
    assert IsSeparator(s[i]) by {
      assert l[i] == 'x';
    }
    forall j | 0 <= j < i
      ensures IsDigit(s[j])
    {
      assert l[j] == f0[j];
    }
    forall j | i < j < |s|
      ensures IsDigit(s[j])
    {
      assert l[j] == f1[j - i - 1];
    }
    assert AllDigits(s[..i]) by {
      assert forall j :: 0 <= j < i ==> s[..i][j] == s[j];
    }
    assert AllDigits(s[i + 1..]) by {
      var t := s[i + 1..];
      assert forall j :: 0 <= j < |t| ==> t[j] == s[i + 1 + j];
    }
  }

  /**
   * `f"{x:d}x{y:d}"`, as `binning_as_str` and the membership test render a
   * binning: for natural numbers, the digits of the first, an 'x' right
   * after them, and the digits of the second.
   */
  function BinningStr(b: (int, int)): (r: string)
    ensures b.0 >= 0 && b.1 >= 0 ==>
      && SeparatorAt(r, |NatStr(b.0)|)
      && r[..|NatStr(b.0)|] == NatStr(b.0)
      && r[|NatStr(b.0)|] == 'x'
      && r[|NatStr(b.0)| + 1..] == NatStr(b.1)
  {
    IntStr(b.0) + "x" + IntStr(b.1)
  }

  /** Rendering a binning of natural numbers and parsing it gives the binning back. */
  lemma BinningStrParses(x: nat, y: nat)
    ensures ParseBinningText(BinningStr((x, y))) == Some((x, y))
  {
    var r := BinningStr((x, y));
    var i := |NatStr(x)|;
    assert SeparatorAt(r, i);
    NatStrValue(x);
    NatStrValue(y);
  }

  /**
   * Every successful parse is canonical up to leading zeros and the case of
   * the separator: the parsed binning is non-negative, renders to a string
   * that parses back to it, and when neither digit run has a superfluous
   * leading zero the rendering is the lower-cased input itself.
   */
  lemma ParsedBinningRendering(s: string, i: int)
    requires SeparatorAt(s, i)
    ensures var b := ParseBinningText(s).value;
      && b.0 >= 0 && b.1 >= 0
      && ParseBinningText(BinningStr(b)) == Some(b)
      && (NoLeadingZero(s[..i]) && NoLeadingZero(s[i + 1..]) ==> BinningStr(b) == Lower(s))
  {
    var b := ParseBinningText(s).value;
    BinningStrParses(b.0, b.1);
    if NoLeadingZero(s[..i]) && NoLeadingZero(s[i + 1..]) {
      NatStrOfCanonical(s[..i]);
      NatStrOfCanonical(s[i + 1..]);
      SeparatedSplit(s, i);
    }
  }

  predicate NoLeadingZero(s: string)
  {
    |s| >= 1 && (s[0] == '0' ==> |s| == 1)
  }

  /** The separator is matched without regard to case: "AXB" reads as "AxB". */
  lemma SeparatorCaseInsensitive(a: string, b: string)
    ensures ParseBinningText(a + "X" + b) == ParseBinningText(a + "x" + b)
  {
    assert Lower(a + "X" + b) == Lower(a + "x" + b);
  }
}
