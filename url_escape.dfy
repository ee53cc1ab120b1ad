/** The URL escaping on both ends of a peer request: Go's `url.QueryEscape`,
    which the client applies to the group and the key, `url.PathEscape`,
    and the decoding the HTTP server applies to a request path before it
    becomes `URL.Path`.  A Go string is a Dafny `string` whose characters
    stand for bytes. */
module UrlEscape {

  predicate IsHex(c: char) {
    '0' <= c <= '9' || 'a' <= c <= 'f' || 'A' <= c <= 'F'
  }

  /** The value of a hexadecimal digit, in either case. */
  function HexValue(c: char): (v: int)
    requires IsHex(c)
    ensures 0 <= v < 16
  {
    if '0' <= c <= '9' then c as int - '0' as int
    else if 'a' <= c <= 'f' then c as int - 'a' as int + 10
    else c as int - 'A' as int + 10
  }

  /** The upper-case hexadecimal digit Go writes for `d`; reading it back
      gives `d`. */
  function HexDigit(d: int): (c: char)
    requires 0 <= d < 16
    ensures IsHex(c) && HexValue(c) == d
  {
    if d < 10 then ('0' as int + d) as char else ('A' as int + d - 10) as char
  }

  /** `%XX` for one byte; its two digits read back as that byte. */
  function PercentEncode(c: char): (e: string)
    requires c as int < 256
    ensures |e| == 3 && e[0] == '%' && IsHex(e[1]) && IsHex(e[2])
    ensures HexValue(e[1]) * 16 + HexValue(e[2]) == c as int
  {
    ['%', HexDigit(c as int / 16), HexDigit(c as int % 16)]
  }

  /** The bytes `shouldEscape` never escapes: letters, digits and `-_.~`. */
  predicate Unreserved(c: char) {
    'A' <= c <= 'Z' || 'a' <= c <= 'z' || '0' <= c <= '9' || c == '-' || c == '_' || c == '.' || c == '~'
  }

  /** The further bytes `url.PathEscape` leaves as they are in a path segment. */
  predicate SegmentSafe(c: char) {
    c == '$' || c == '&' || c == '+' || c == ':' || c == '=' || c == '@'
  }

  /** One byte of `url.QueryEscape`: an unreserved byte stays, a space
      becomes `+`, any other byte `%XX`.  (A character beyond one byte does
      not occur in a Go string and is kept.) */
  function QueryEscapeByte(c: char): string {
    if Unreserved(c) then [c]
    else if c == ' ' then "+"
    else if c as int < 256 then PercentEncode(c)
    else [c]
  }

  /** `url.QueryEscape`. */
  function QueryEscape(s: string): (e: string)
    ensures |e| >= |s|
    decreases |s|
  {
    if |s| == 0 then "" else QueryEscapeByte(s[0]) + QueryEscape(s[1..])
  }

  /** One byte of `url.PathEscape`: unreserved and segment-safe bytes stay,
      any other byte, the space included, becomes `%XX`. */
  function PathEscapeByte(c: char): string {
    if Unreserved(c) || SegmentSafe(c) then [c]
    else if c as int < 256 then PercentEncode(c)
    else [c]
  }

  /** `url.PathEscape`. */
  function PathEscape(s: string): (e: string)
    ensures |e| >= |s|
    decreases |s|
  {
    if |s| == 0 then "" else PathEscapeByte(s[0]) + PathEscape(s[1..])
  }

  /** `url.PathEscape` writes `/` as `%2F`, so an escaped segment holds
      no `/`. */
  lemma {:induction false} PathEscapeNoSlash(s: string)
    ensures '/' !in PathEscape(s)
    decreases |s|
  {
    if |s| > 0 {
      PathEscapeNoSlash(s[1..]);
      var c := s[0];
      if !(Unreserved(c) || SegmentSafe(c)) && c as int < 256 {
        var e := PercentEncode(c);
        assert e == [e[0], e[1], e[2]];
      }
      assert '/' !in PathEscapeByte(c);
    }
  }

  /** The server's decoding of a request path into `URL.Path`: each `%XX`
      becomes the byte `XX`, and `+` stays `+` (only query decoding turns
      it into a space). */
  function PathUnescape(s: string): string
    decreases |s|
  {
    if |s| == 0 then ""
    else if s[0] == '%' && |s| >= 3 && IsHex(s[1]) && IsHex(s[2]) then
      [(HexValue(s[1]) * 16 + HexValue(s[2])) as char] + PathUnescape(s[3..])
    else [s[0]] + PathUnescape(s[1..])
  }

  /** Every space replaced by `+`. */
  function SpaceToPlus(s: string): (r: string)
    ensures |r| == |s|
    ensures forall i :: 0 <= i < |s| ==> r[i] == (if s[i] == ' ' then '+' else s[i])
    decreases |s|
  {
    if |s| == 0 then "" else [if s[0] == ' ' then '+' else s[0]] + SpaceToPlus(s[1..])
  }

  /** Text without spaces is left as it is. */
  lemma SpaceFreeUnchanged(s: string)
    requires ' ' !in s
    ensures SpaceToPlus(s) == s
  {
    var r := SpaceToPlus(s);
    forall i | 0 <= i < |s| ensures r[i] == s[i] {
      assert s[i] != ' ';
    }
  }

  /** The key of the example: `"a b"` goes to `"a+b"`. */
  lemma SpacedExample()
    ensures SpaceToPlus("a b") == "a+b"
  {
    var r := SpaceToPlus("a b");
    assert r[0] == 'a' && r[1] == '+' && r[2] == 'b';
  }

  /** Text without `%` decodes to itself. */
  lemma {:induction false} UnescapePlain(p: string, t: string)
    requires '%' !in p
    ensures PathUnescape(p + t) == p + PathUnescape(t)
    decreases |p|
  {
    if |p| > 0 {
      assert (p + t)[0] == p[0] && p[0] != '%';
      assert (p + t)[1..] == p[1..] + t;
      assert PathUnescape(p + t) == [p[0]] + PathUnescape(p[1..] + t);
      UnescapePlain(p[1..], t);
      assert p == [p[0]] + p[1..];
    } else {
      assert p + t == t;
    }
  }

  /** A `%XX` escape decodes to its byte. */
  lemma UnescapeEncoded(c: char, t: string)
    requires c as int < 256
    ensures PathUnescape(PercentEncode(c) + t) == [c] + PathUnescape(t)
  {
    var e := PercentEncode(c);
    assert (e + t)[0] == '%' && (e + t)[1] == e[1] && (e + t)[2] == e[2];
    assert (e + t)[3..] == t;
  }

  /** One query-escaped byte decodes to itself, or to `+` for a space. */
  lemma UnescapeQueryByte(c: char, t: string)
    ensures PathUnescape(QueryEscapeByte(c) + t) == [if c == ' ' then '+' else c] + PathUnescape(t)
  {
    if Unreserved(c) || c == ' ' || c as int >= 256 {
      UnescapePlain(QueryEscapeByte(c), t);
    } else {
      UnescapeEncoded(c, t);
    }
  }

  /** One path-escaped byte decodes to itself. */
  lemma UnescapePathByte(c: char, t: string)
    ensures PathUnescape(PathEscapeByte(c) + t) == [c] + PathUnescape(t)
  {
    if Unreserved(c) || SegmentSafe(c) || c as int >= 256 {
      UnescapePlain(PathEscapeByte(c), t);
    } else {
      UnescapeEncoded(c, t);
    }
  }

  /** What the server reads back from a query-escaped string: the string
      with every space turned into `+`. */
  lemma {:induction false} UnescapeQueryEscape(s: string, t: string)
    ensures PathUnescape(QueryEscape(s) + t) == SpaceToPlus(s) + PathUnescape(t)
    decreases |s|
  {
    if |s| > 0 {
      var rest := QueryEscape(s[1..]) + t;
      UnescapeQueryEscape(s[1..], t);
      assert QueryEscape(s) + t == QueryEscapeByte(s[0]) + rest;
      UnescapeQueryByte(s[0], rest);
    } else {
      assert QueryEscape(s) + t == t;
    }
  }

  /** A path-escaped string reads back exactly. */
  lemma {:induction false} UnescapePathEscape(s: string, t: string)
    ensures PathUnescape(PathEscape(s) + t) == s + PathUnescape(t)
    decreases |s|
  {
    if |s| > 0 {
      var rest := PathEscape(s[1..]) + t;
      UnescapePathEscape(s[1..], t);
      assert PathEscape(s) + t == PathEscapeByte(s[0]) + rest;
      UnescapePathByte(s[0], rest);
      assert s == [s[0]] + s[1..];
    } else {
      assert PathEscape(s) + t == t;
    }
  }

  /** Decoding `base + eg + "/" + ek` piece by piece, given how each
      escaped piece decodes. */
  lemma DecodeRequestPath(base: string, eg: string, ek: string, dg: string, dk: string)
    requires '%' !in base
    requires PathUnescape(eg + ("/" + ek)) == dg + PathUnescape("/" + ek)
    requires PathUnescape(ek) == dk
    ensures PathUnescape(base + eg + "/" + ek) == base + dg + "/" + dk
  {
    assert base + eg + "/" + ek == base + (eg + ("/" + ek));
    UnescapePlain(base, eg + ("/" + ek));
    UnescapePlain("/", ek);
  }

  /** A query-escaped string alone decodes with spaces turned into `+`. */
  lemma DecodeQueryEscaped(s: string)
    ensures PathUnescape(QueryEscape(s)) == SpaceToPlus(s)
  {
    UnescapeQueryEscape(s, "");
    assert QueryEscape(s) + "" == QueryEscape(s);
    assert SpaceToPlus(s) + "" == SpaceToPlus(s);
  }

  /** A path-escaped string alone decodes to itself. */
  lemma DecodePathEscaped(s: string)
    ensures PathUnescape(PathEscape(s)) == s
  {
    UnescapePathEscape(s, "");
    assert PathEscape(s) + "" == PathEscape(s);
    assert s + "" == s;
  }

  /** A request path `base/<group>/<key>` built with `url.QueryEscape`
      decodes to the group and the key with spaces turned into `+`. */
  lemma DecodeQueryEscapedPath(base: string, group: string, key: string)
    requires '%' !in base
    ensures PathUnescape(base + QueryEscape(group) + "/" + QueryEscape(key))
            == base + SpaceToPlus(group) + "/" + SpaceToPlus(key)
  {
    UnescapeQueryEscape(group, "/" + QueryEscape(key));
    DecodeQueryEscaped(key);
    DecodeRequestPath(base, QueryEscape(group), QueryEscape(key), SpaceToPlus(group), SpaceToPlus(key));
  }

  /** A request path `base/<group>/<key>` built with `url.PathEscape`
      decodes to exactly the group and the key. */
  lemma DecodePathEscapedPath(base: string, group: string, key: string)
    requires '%' !in base
    ensures PathUnescape(base + PathEscape(group) + "/" + PathEscape(key)) == base + group + "/" + key
  {
    UnescapePathEscape(group, "/" + PathEscape(key));
    DecodePathEscaped(key);
    DecodeRequestPath(base, PathEscape(group), PathEscape(key), group, key);
  }
}
