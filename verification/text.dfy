/** The java.lang.String operations the signer relies on, with Java's semantics. */
module Text {

  /** `String.join(sep, xs)`, or a stream collected with `Collectors.joining(sep)`. */
  function Join(sep: string, xs: seq<string>): string
  {
    if xs == [] then "" else if |xs| == 1 then xs[0] else xs[0] + sep + Join(sep, xs[1..])
  }

  /** What a StringBuilder holds after `append(x).append(sep)` for every `x` in turn. */
  function Terminated(sep: string, xs: seq<string>): string
  {
    if xs == [] then "" else xs[0] + sep + Terminated(sep, xs[1..])
  }

  /** Concatenation of a sequence of strings. */
  function Concat(xs: seq<string>): string
  {
    if xs == [] then "" else xs[0] + Concat(xs[1..])
  }

  lemma {:induction false} TakeOneMore<T>(s: seq<T>, i: nat)
    requires i < |s|
    ensures s[..i + 1] == s[..i] + [s[i]]
  {
  }

  lemma {:induction false} TakeOfTake<T>(s: seq<T>, i: nat)
    requires i < |s|
    ensures s[..i + 1][..i] == s[..i]
  {
  }

  lemma {:induction false} TakeAll<T>(s: seq<T>)
    ensures s[..|s|] == s
  {
  }

  lemma {:induction false} SplitLast<T>(s: seq<T>)
    requires s != []
    ensures s == s[..|s| - 1] + [s[|s| - 1]]
  {
  }

  lemma {:induction false} InitOfAppend<T>(s: seq<T>, x: T)
    ensures (s + [x])[..|s|] == s
  {
  }

  /** Deleting the last separator of a terminated list gives the joined list. */
  lemma {:induction false} TerminatedIsJoinPlusSep(sep: string, xs: seq<string>)
    requires xs != []
    ensures Terminated(sep, xs) == Join(sep, xs) + sep
  {
    if |xs| > 1 {
      TerminatedIsJoinPlusSep(sep, xs[1..]);
    }
  }

  lemma {:induction false} TerminatedAppend(sep: string, xs: seq<string>, x: string)
    ensures Terminated(sep, xs + [x]) == Terminated(sep, xs) + x + sep
  {
    if xs != [] {
      assert (xs + [x])[1..] == xs[1..] + [x];
      TerminatedAppend(sep, xs[1..], x);
    }
  }

  lemma {:induction false} TerminatedConcat(sep: string, xs: seq<string>, ys: seq<string>)
    ensures Terminated(sep, xs + ys) == Terminated(sep, xs) + Terminated(sep, ys)
  {
    if xs != [] {
      assert (xs + ys)[1..] == xs[1..] + ys;
      TerminatedConcat(sep, xs[1..], ys);
    } else {
      assert xs + ys == ys;
    }
  }

  lemma {:induction false} AppendAssoc(a: string, b: string, c: string)
    ensures (a + b) + c == a + (b + c)
  {
  }

  lemma {:induction false} JoinAppend(sep: string, xs: seq<string>, x: string)
    ensures Join(sep, xs + [x]) == if xs == [] then x else Join(sep, xs) + sep + x
  {
    if |xs| > 1 {
      assert (xs + [x])[1..] == xs[1..] + [x];
      JoinAppend(sep, xs[1..], x);
    }
  }

  /** Joining a list whose last part is already joined. */
  lemma {:induction false} JoinTerminatedPrefix(sep: string, xs: seq<string>, ys: seq<string>)
    requires ys != []
    ensures Join(sep, xs + ys) == Terminated(sep, xs) + Join(sep, ys)
  {
    if xs != [] {
      assert (xs + ys)[1..] == xs[1..] + ys;
      JoinTerminatedPrefix(sep, xs[1..], ys);
      calc {
        Join(sep, xs + ys);
        (xs + ys)[0] + sep + Join(sep, (xs + ys)[1..]);
        xs[0] + sep + (Terminated(sep, xs[1..]) + Join(sep, ys));
        (xs[0] + sep + Terminated(sep, xs[1..])) + Join(sep, ys);
      }
    } else {
      assert xs + ys == ys;
    }
  }

  lemma {:induction false} ConcatAppend(xs: seq<string>, x: string)
    ensures Concat(xs + [x]) == Concat(xs) + x
  {
    if xs != [] {
      assert (xs + [x])[1..] == xs[1..] + [x];
      ConcatAppend(xs[1..], x);
    }
  }

  /** `s.split(c, -1)`: every field between occurrences of `c`, empty fields included. */
  function Fields(s: string, c: char): (r: seq<string>)
    ensures |r| >= 1
  {
    if s == [] then [""]
    else if s[0] == c then [""] + Fields(s[1..], c)
    else var f := Fields(s[1..], c); [[s[0]] + f[0]] + f[1..]
  }

  lemma {:induction false} FieldsNoSep(s: string, c: char)
    requires c !in s
    ensures Fields(s, c) == [s]
  {
    if s != [] {
      FieldsNoSep(s[1..], c);
      assert s == [s[0]] + s[1..];
    }
  }

  /** Splitting at a separator splits the field list there. */
  lemma {:induction false} FieldsConcat(a: string, b: string, c: char)
    ensures Fields(a + [c] + b, c) == Fields(a, c) + Fields(b, c)
  {
    if a == [] {
      assert a + [c] + b == [c] + b;
    } else {
      assert (a + [c] + b)[1..] == a[1..] + [c] + b;
      FieldsConcat(a[1..], b, c);
    }
  }

  /** Splitting undoes joining, when no part holds the separator. */
  lemma {:induction false} FieldsOfJoin(xs: seq<string>, c: char)
    requires xs != []
    requires forall i :: 0 <= i < |xs| ==> c !in xs[i]
    ensures Fields(Join([c], xs), c) == xs
  {
    if |xs| == 1 {
      FieldsNoSep(xs[0], c);
    } else {
      FieldsOfJoin(xs[1..], c);
      FieldsConcat(xs[0], Join([c], xs[1..]), c);
      FieldsNoSep(xs[0], c);
      assert xs == [xs[0]] + xs[1..];
    }
  }

  /** Removes the empty strings at the end of a list, as `split` with limit 0 does. */
  function StripTrailingEmpty(xs: seq<string>): (r: seq<string>)
    ensures |r| <= |xs| && r == xs[..|r|]
    ensures r != [] ==> r[|r| - 1] != ""
    ensures forall i :: |r| <= i < |xs| ==> xs[i] == ""
  {
    if xs == [] then [] else if xs[|xs| - 1] == "" then StripTrailingEmpty(xs[..|xs| - 1]) else xs
  }

  /** `s.split(c)` (limit 0): without a match the whole string; otherwise the fields
      with the trailing empty ones removed. */
  function JavaSplit(s: string, c: char): seq<string>
  {
    if c !in s then [s] else StripTrailingEmpty(Fields(s, c))
  }

  /** Two separators at the end of a string add two empty fields, which `split` drops. */
  lemma {:induction false} SplitDropsTrailing(q: string, c: char, xs: seq<string>)
    requires Fields(q, c) == xs && xs[|xs| - 1] != ""
    ensures JavaSplit(q + [c, c], c) == xs
  {
    FieldsConcat(q, [c], c);
    FieldsConcat([], [], c);
    assert q + [c, c] == q + [c] + [c];
    assert [c] == [] + [c] + [];
    var ys := xs + ["", ""];
    assert Fields(q + [c, c], c) == ys;
    assert ys[..|xs| + 1][..|xs|] == xs;
  }

  /** Two separators between two strings leave an empty field between their fields. */
  lemma {:induction false} SplitKeepsInnerEmpty(p: string, q: string, c: char, xs: seq<string>, ys: seq<string>)
    requires Fields(p, c) == xs && Fields(q, c) == ys && ys[|ys| - 1] != ""
    ensures JavaSplit(p + [c, c] + q, c) == xs + [""] + ys
  {
    var s, zs := p + [c, c] + q, xs + [""] + ys;
    FieldsInnerEmpty(p, q, c, xs, ys);
    assert s[|p|] == c;
    assert zs[|zs| - 1] == ys[|ys| - 1];
  }

  lemma {:induction false} FieldsInnerEmpty(p: string, q: string, c: char, xs: seq<string>, ys: seq<string>)
    requires Fields(p, c) == xs && Fields(q, c) == ys
    ensures Fields(p + [c, c] + q, c) == xs + [""] + ys
  {
    var t := [c] + q;
    assert p + [c, c] + q == p + [c] + t;
    assert t == [] + [c] + q;
    FieldsConcat([], q, c);
    assert Fields([], c) == [""];
    assert Fields(t, c) == [""] + ys;
    FieldsConcat(p, t, c);
    assert xs + ([""] + ys) == xs + [""] + ys;
  }

  /** Whether `trim()` leaves nothing: every character is at or below U+0020. */
  predicate IsBlank(s: string)
  {
    forall i :: 0 <= i < |s| ==> s[i] <= ' '
  }

  function TrimStart(s: string): (r: string)
    ensures |r| <= |s|
    ensures r != [] ==> r[0] > ' '
    ensures r == [] <==> IsBlank(s)
  {
    if s != [] && s[0] <= ' ' then TrimStart(s[1..]) else s
  }

  function TrimEnd(s: string): (r: string)
    ensures |r| <= |s|
    ensures r != [] ==> r[|r| - 1] > ' '
    ensures r == [] <==> IsBlank(s)
  {
    if s != [] && s[|s| - 1] <= ' ' then TrimEnd(s[..|s| - 1]) else s
  }

  /** `TrimStart` drops a blank prefix and keeps the rest. */
  lemma {:induction false} TrimStartDropsBlanks(s: string)
    ensures var r := TrimStart(s); r == s[|s| - |r|..] && IsBlank(s[..|s| - |r|])
  {
    if s != [] && s[0] <= ' ' {
      TrimStartDropsBlanks(s[1..]);
      var r := TrimStart(s[1..]);
      assert s[|s| - |r|..] == s[1..][|s| - 1 - |r|..];
      assert s[..|s| - |r|] == [s[0]] + s[1..][..|s| - 1 - |r|];
    }
  }

  /** `TrimEnd` drops a blank suffix and keeps the rest. */
  lemma {:induction false} TrimEndDropsBlanks(s: string)
    ensures var r := TrimEnd(s); r == s[..|r|] && IsBlank(s[|r|..])
  {
    if s != [] && s[|s| - 1] <= ' ' {
      var u := s[..|s| - 1];
      TrimEndDropsBlanks(u);
      var r := TrimEnd(u);
      assert s[..|r|] == u[..|r|];
      assert s[|r|..] == u[|r|..] + [s[|s| - 1]];
    }
  }

  /** `r` is the slice `s[i..j]`, and only characters at or below U+0020 lie outside it. */
  predicate BlankAround(s: string, i: int, j: int, r: string)
  {
    0 <= i <= j <= |s| && r == s[i..j] && IsBlank(s[..i]) && IsBlank(s[j..])
  }

  /** `String.trim()`: drops the leading and trailing characters at or below U+0020. */
  function Trim(s: string): (r: string)
    ensures r != [] ==> r[0] > ' ' && r[|r| - 1] > ' '
    ensures r == [] <==> IsBlank(s)
  {
    TrimEndDropsBlanks(TrimStart(s));
    TrimEnd(TrimStart(s))
  }

  /** What `trim()` keeps is a slice of its input, with only blanks cut on either side. */
  lemma {:induction false} TrimIsSlice(s: string)
    ensures exists i, j :: BlankAround(s, i, j, Trim(s))
  {
    var t := TrimStart(s);
    TrimStartDropsBlanks(s);
    TrimEndDropsBlanks(t);
    assert Trim(s) == TrimEnd(t);
    TrimmedSlice(s, t, Trim(s), |s| - |t|);
  }

  /** Trimming both ends leaves a slice with only blanks on either side. */
  lemma {:induction false} TrimmedSlice(s: string, t: string, r: string, i: int)
    requires |t| <= |s| && i == |s| - |t| && t == s[i..] && IsBlank(s[..i])
    requires |r| <= |t| && r == t[..|r|] && IsBlank(t[|r|..])
    ensures BlankAround(s, i, i + |r|, r)
  {
    assert s[i + |r|..] == t[|r|..];
  }

  /** `toLowerCase()` on the ASCII letters. */
  function LowerChar(c: char): char
  {
    if 'A' <= c <= 'Z' then (c as int + 32) as char else c
  }

  function Lower(s: string): (r: string)
    ensures |r| == |s| && forall i :: 0 <= i < |s| ==> r[i] == LowerChar(s[i])
  {
    if s == [] then [] else [LowerChar(s[0])] + Lower(s[1..])
  }

  predicate IsDigit(c: char)
  {
    '0' <= c <= '9'
  }

  function DigitChar(d: nat): char
    requires d < 10
  {
    ('0' as int + d) as char
  }

  /** Decimal text of a natural number, as `Long.toString` prints it. */
  function NatText(n: nat): (r: string)
    ensures |r| >= 1 && forall i :: 0 <= i < |r| ==> IsDigit(r[i])
  {
    if n < 10 then [DigitChar(n)] else NatText(n / 10) + [DigitChar(n % 10)]
  }

  /** `Long.toString`: a minus sign before the magnitude of a negative number. */
  function IntText(x: int): (r: string)
    ensures |r| >= 1 && forall i :: 0 <= i < |r| ==> IsDigit(r[i]) || r[i] == '-'
  {
    if x < 0 then "-" + NatText(-x) else NatText(x)
  }

  function Zeros(k: nat): (r: string)
    ensures |r| == k && forall i :: 0 <= i < k ==> r[i] == '0'
  {
    if k == 0 then "" else "0" + Zeros(k - 1)
  }

  /** A number printed with at least `width` digits, zero-padded, as a date pattern prints it. */
  function Padded(n: nat, width: nat): (r: string)
    ensures |r| == if |NatText(n)| < width then width else |NatText(n)|
    ensures forall i :: 0 <= i < |r| ==> IsDigit(r[i])
  {
    var t := NatText(n);
    if |t| < width then Zeros(width - |t|) + t else t
  }
}
