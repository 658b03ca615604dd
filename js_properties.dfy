/** Round trips between the JavaScript primitives of module Js. */
module JsProperties {
  import opened Js

  lemma {:induction false} DigitsOfNat(n: nat)
    ensures var s := NatToString(n); DigitsValue(s, 10) == n
  {
    if n >= 10 {
      var s := NatToString(n);
      var prefix := NatToString(n / 10);
      assert s[..|s| - 1] == prefix;
      DigitsOfNat(n / 10);
    }
  }

  lemma DecimalDigitIsNotWhiteSpace(c: char)
    requires IsDigit(c, 10)
    ensures !IsWhiteSpace(c) && c != '-' && c != '+'
  {
  }

  /** The decimal digits of a natural number, without sign, read back as it. */
  lemma ParseUnsignedOfNatToString(m: nat)
    ensures ParseUnsigned(NatToString(m)) == Int(m)
  {
    var s := NatToString(m);
    assert ParseUnsigned(s) == ParseDigits(s, 10);
    DigitPrefixIsDigits(s, 10);
    assert DigitPrefixLength(s, 10) == |s|;
    assert s[..|s|] == s;
    DigitsOfNat(m);
  }

  /** The decimal text of a natural number, with or without a minus sign, reads
      back as that number. */
  lemma ParseIntOfNatToString(m: nat)
    ensures ParseInt(NatToString(m)) == Int(m)
    ensures ParseInt("-" + NatToString(m)) == Int(-(m as int))
  {
    var s := NatToString(m);
    DecimalDigitIsNotWhiteSpace(s[0]);
    ParseUnsignedOfNatToString(m);
    var t := "-" + s;
    assert t[1..] == s;
  }

  /** Reading back the text of a number gives the number: `parseInt(`${n}`) === n`
      for every integer, and NaN reads back as NaN. */
  lemma ParseIntOfNumToString(n: Num)
    ensures ParseInt(NumToString(n)) == n
  {
    if n.Int? {
      ParseIntOfNatToString(if n.v < 0 then -n.v else n.v);
    } else {
      assert NumToString(n) == "NaN";
      assert !IsDigit('N', 10);
      assert DigitPrefixLength("NaN", 10) == 0;
    }
  }

  lemma {:induction false} SplitOnPrefix(w: string, t: string, sep: char)
    requires forall k :: 0 <= k < |w| ==> w[k] != sep
    ensures SplitOn(w + t, sep) == [w + SplitOn(t, sep)[0]] + SplitOn(t, sep)[1..]
  {
    if w != [] {
      assert (w + t)[1..] == w[1..] + t;
      SplitOnPrefix(w[1..], t, sep);
      assert [w[0]] + (w[1..] + SplitOn(t, sep)[0]) == w + SplitOn(t, sep)[0];
    } else {
      assert w + t == t;
      assert w + SplitOn(t, sep)[0] == SplitOn(t, sep)[0];
      assert SplitOn(t, sep) == [SplitOn(t, sep)[0]] + SplitOn(t, sep)[1..];
    }
  }

  /** Splitting a join gives back the parts, provided no part contains the
      separator. */
  lemma {:induction false} SplitOnJoin(parts: seq<string>, sep: char)
    requires parts != []
    requires forall i, k :: 0 <= i < |parts| && 0 <= k < |parts[i]| ==> parts[i][k] != sep
    ensures SplitOn(Join(parts, [sep]), sep) == parts
  {
    if |parts| == 1 {
      SplitOnPrefix(parts[0], "", sep);
      assert SplitOn("", sep) == [""];
      assert parts[0] + "" == parts[0];
    } else {
      var rest := Join(parts[1..], [sep]);
      assert Join(parts, [sep]) == parts[0] + ([sep] + rest);
      SplitOnPrefix(parts[0], [sep] + rest, sep);
      assert ([sep] + rest)[1..] == rest;
      assert SplitOn([sep] + rest, sep) == [""] + SplitOn(rest, sep);
      SplitOnJoin(parts[1..], sep);
      assert parts[0] + "" == parts[0];
      assert [parts[0]] + parts[1..] == parts;
    }
  }

  /** Joining the pieces of a split with the separator gives back the string. */
  lemma {:induction false} JoinSplitOn(s: string, sep: char)
    ensures Join(SplitOn(s, sep), [sep]) == s
  {
    if s != [] {
      JoinSplitOn(s[1..], sep);
      var rest := SplitOn(s[1..], sep);
      if s[0] == sep {
        assert s == [sep] + s[1..];
      } else if |rest| == 1 {
        assert s == [s[0]] + s[1..];
      } else {
        assert rest == [rest[0]] + rest[1..];
        assert Join(rest, [sep]) == rest[0] + [sep] + Join(rest[1..], [sep]);
        assert s == [s[0]] + s[1..];
      }
    }
  }

  lemma {:induction false} ConcatSnoc(parts: seq<string>, last: string)
    ensures Concat(parts + [last]) == Concat(parts) + last
  {
    assert (parts + [last])[..|parts|] == parts;
  }

  /** Joining two arrays of strings with nothing between them is joining each. */
  lemma {:induction false} ConcatAppend(p: seq<string>, q: seq<string>)
    ensures Concat(p + q) == Concat(p) + Concat(q)
    decreases |q|
  {
    if q == [] {
      assert p + q == p;
    } else {
      var n := |q| - 1;
      ConcatAppend(p, q[..n]);
      assert p + q == (p + q[..n]) + [q[n]];
      ConcatSnoc(p + q[..n], q[n]);
    }
  }

  /** `s.split('').join('') === s`: the one-character strings concatenate back to
      the line they came from. */
  lemma {:induction false} ConcatChars(s: string)
    ensures Concat(Chars(s)) == s
  {
    if s != [] {
      var n := |s| - 1;
      assert Chars(s) == Chars(s[..n]) + [[s[n]]];
      ConcatSnoc(Chars(s[..n]), [s[n]]);
      ConcatChars(s[..n]);
      assert s[..n] + [s[n]] == s;
    }
  }
}
