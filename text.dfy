/** Go string helpers used by the cache and the web framework: `strings.Split`
    with a one-character separator, `strings.Join`, `strings.SplitN(s, sep, 2)`
    and `strconv.Itoa` on non-negative numbers.  A Go string is modelled as a
    Dafny `string` whose characters each stand for one byte. */
module Text {
  import opened Wrappers

  /** `strings.Split(s, string(sep))`: the pieces of `s` between occurrences of `sep`. */
  function Split(s: string, sep: char): (parts: seq<string>)
    ensures |parts| >= 1
    ensures forall i :: 0 <= i < |parts| ==> sep !in parts[i]
    decreases |s|
  {
    if |s| == 0 then [""]
    else
      var rest := Split(s[1..], sep);
      if s[0] == sep then [""] + rest
      else [[s[0]] + rest[0]] + rest[1..]
  }

  /** `strings.Join(parts, string(sep))`. */
  function Join(parts: seq<string>, sep: char): string
    decreases |parts|
  {
    if |parts| == 0 then ""
    else if |parts| == 1 then parts[0]
    else parts[0] + [sep] + Join(parts[1..], sep)
  }

  /** Joining the pieces of a split gives back the original string. */
  lemma {:induction false} JoinSplit(s: string, sep: char)
    ensures Join(Split(s, sep), sep) == s
    decreases |s|
  {
    if |s| > 0 {
      var rest := Split(s[1..], sep);
      JoinSplit(s[1..], sep);
      if s[0] == sep {
        assert Split(s, sep) == [""] + rest;
        assert ([""] + rest)[1..] == rest;
      } else {
        var parts := Split(s, sep);
        assert parts == [[s[0]] + rest[0]] + rest[1..];
        assert parts[1..] == rest[1..];
        if |rest| > 1 {
          assert Join(rest, sep) == rest[0] + [sep] + Join(rest[1..], sep);
        }
      }
    }
  }

  /** Splitting a join of separator-free pieces gives back the pieces. */
  lemma {:induction false} SplitJoin(parts: seq<string>, sep: char)
    requires |parts| >= 1
    requires forall i :: 0 <= i < |parts| ==> sep !in parts[i]
    ensures Split(Join(parts, sep), sep) == parts
    decreases |parts|, |parts[0]|
  {
    if |parts[0]| > 0 {
      var p0 := parts[0];
      var tail := [p0[1..]] + parts[1..];
      assert sep !in tail[0];
      forall i | 1 <= i < |tail| ensures sep !in tail[i] { assert tail[i] == parts[i]; }
      SplitJoin(tail, sep);
      JoinFirstChar(parts, sep);
      SplitCons(p0[0], Join(tail, sep), sep);
      assert tail[1..] == parts[1..];
      assert [p0[0]] + tail[0] == p0;
      assert parts == [p0] + parts[1..];
    } else if |parts| > 1 {
      SplitJoin(parts[1..], sep);
      JoinHead("", parts[1..], sep);
      assert Join(parts, sep) == [sep] + Join(parts[1..], sep) by {
        assert [""] + parts[1..] == parts;
      }
      SplitCons(sep, Join(parts[1..], sep), sep);
      assert parts == [""] + parts[1..];
    }
  }

  /** Moving the first character of the first piece out of a join. */
  lemma JoinFirstChar(parts: seq<string>, sep: char)
    requires |parts| >= 1 && |parts[0]| > 0
    ensures Join(parts, sep) == [parts[0][0]] + Join([parts[0][1..]] + parts[1..], sep)
  {
    var p0 := parts[0];
    assert [p0] + parts[1..] == parts;
    JoinHead(p0, parts[1..], sep);
    JoinHead(p0[1..], parts[1..], sep);
    assert [p0[0]] + p0[1..] == p0;
  }

  /** One step of `Split`: the first character either closes the first
      piece (a separator) or starts it. */
  lemma SplitCons(c: char, s: string, sep: char)
    ensures var rest := Split(s, sep);
      Split([c] + s, sep) == if c == sep then [""] + rest else [[c] + rest[0]] + rest[1..]
  {
    assert ([c] + s)[1..] == s;
  }

  /** Join of a head piece followed by further pieces. */
  lemma JoinHead(head: string, more: seq<string>, sep: char)
    ensures Join([head] + more, sep) == if |more| == 0 then head else head + [sep] + Join(more, sep)
  {
    if |more| > 0 {
      assert ([head] + more)[1..] == more;
    }
  }

  /** `strings.SplitN(s, string(sep), 2)`: `None` when `sep` does not occur
      (Go returns the one-piece slice `[s]`), otherwise the text before the
      first `sep` and everything after it. */
  function Cut(s: string, sep: char): (r: Option<(string, string)>)
    ensures r.None? <==> sep !in s
    ensures r.Some? ==> s == r.value.0 + [sep] + r.value.1 && sep !in r.value.0
    decreases |s|
  {
    if |s| == 0 then None
    else if s[0] == sep then Some(("", s[1..]))
    else
      match Cut(s[1..], sep)
      case None => None
      case Some((before, after)) => Some(([s[0]] + before, after))
  }

  /** `Cut` splits at the first separator: text without `sep`, then `sep`,
      then anything, comes apart into exactly those two pieces. */
  lemma {:induction false} CutAt(a: string, b: string, sep: char)
    requires sep !in a
    ensures Cut(a + [sep] + b, sep) == Some((a, b))
    decreases |a|
  {
    var s := a + [sep] + b;
    if |a| == 0 {
      assert s == [sep] + b;
    } else {
      assert s[0] == a[0];
      assert s[1..] == a[1..] + [sep] + b;
      CutAt(a[1..], b, sep);
      assert [a[0]] + a[1..] == a;
    }
  }

  /** The digit character for `d < 10`. */
  function Digit(d: nat): char
    requires d < 10
  {
    "0123456789"[d]
  }

  /** `strconv.Itoa(n)` for `n >= 0`: the decimal numeral of `n`. */
  function Itoa(n: nat): (s: string)
    ensures |s| >= 1
    ensures forall i :: 0 <= i < |s| ==> '0' <= s[i] <= '9'
  {
    if n < 10 then [Digit(n)] else Itoa(n / 10) + [Digit(n % 10)]
  }

  /** The value of a string of decimal digits (reference reading of a numeral). */
  function DecimalValue(s: string): nat
    requires forall i :: 0 <= i < |s| ==> '0' <= s[i] <= '9'
  {
    if |s| == 0 then 0
    else 10 * DecimalValue(s[..|s| - 1]) + ((s[|s| - 1] as int) - ('0' as int))
  }

  /** `Itoa` writes the number it is given: reading its numeral back yields `n`. */
  lemma {:induction false} ItoaValue(n: nat)
    ensures DecimalValue(Itoa(n)) == n
  {
    if n >= 10 {
      var s := Itoa(n);
      ItoaValue(n / 10);
      assert s[..|s| - 1] == Itoa(n / 10);
    }
  }

  /** Distinct replica numbers get distinct numerals. */
  lemma ItoaInjective(m: nat, n: nat)
    requires Itoa(m) == Itoa(n)
    ensures m == n
  {
    ItoaValue(m);
    ItoaValue(n);
  }
}
