/** An immutable view of bytes held either as a byte slice `b` or as a
    string `s` (go-cache/day2-single-node/gencache/byteview.go).  Both
    representations are byte sequences here; `b == None` is Go's nil slice. */
module ByteViews {
  import opened Wrappers

  newtype byte = x: int | 0 <= x < 256

  datatype ByteView = ByteView(b: Option<seq<byte>>, s: seq<byte>) {

    /** The bytes the view stands for, whichever representation holds them. */
    function Content(): seq<byte> {
      if b.Some? then b.value else s
    }

    /** `Len`: the length of the non-nil slice, else of the string. */
    function Len(): (n: nat)
      ensures n == |Content()|
      ensures b.Some? ==> n == |b.value|
      ensures b.None? ==> n == |s|
    {
      if b.Some? then |b.value| else |s|
    }

    /** `At(i)`: the `i`-th byte; Go panics outside `[0, Len())`. */
    function At(i: int): (x: byte)
      requires 0 <= i < Len()
      ensures x == Content()[i]
    {
      if b.Some? then b.value[i] else s[i]
    }

    /** `Slice(from, to)`: a new view in the same representation. */
    function Slice(from: int, to: int): (v: ByteView)
      requires 0 <= from <= to <= Len()
      ensures v.Content() == Content()[from..to]
      ensures v.b.Some? == b.Some?
    {
      if b.Some? then ByteView(Some(b.value[from..to]), []) else ByteView(None, s[from..to])
    }

    /** `SliceFrom(from)`: the view of everything from `from` on. */
    function SliceFrom(from: int): (v: ByteView)
      requires 0 <= from <= Len()
      ensures v.Content() == Content()[from..]
      ensures v.b.Some? == b.Some?
    {
      if b.Some? then ByteView(Some(b.value[from..]), []) else ByteView(None, s[from..])
    }
  }

  /** `value.Len()` as a function value: the size a byte-budget store
      charges for a view, in both gencache versions. */
  function ViewLen(v: ByteView): (n: nat)
    ensures n == |v.Content()|
  {
    v.Len()
  }

  /** The view Go's zero value `ByteView{}` denotes. */
  const Empty := ByteView(None, [])

  /** A view over a byte slice, `ByteView{b: bytes}`. */
  function OfBytes(bytes: seq<byte>): (v: ByteView)
    ensures v.Content() == bytes && v.Len() == |bytes|
  {
    ByteView(Some(bytes), [])
  }

  /** A view over a string, `ByteView{s: str}`. */
  function OfString(str: seq<byte>): (v: ByteView)
    ensures v.Content() == str && v.Len() == |str|
  {
    ByteView(None, str)
  }

  /** `cloneBytes`: a fresh slice with the same bytes. */
  function CloneBytes(bytes: seq<byte>): (c: seq<byte>)
    ensures c == bytes
  {
    bytes[..]
  }

  /** `ByteSlice`: a copy of the content (`cloneBytes(b)` or `[]byte(s)`). */
  function ByteSlice(v: ByteView): (c: seq<byte>)
    ensures c == v.Content()
  {
    if v.b.Some? then CloneBytes(v.b.value) else v.s
  }

  /** `String`: the content as a Go string (`string(b)` or `s`). */
  function String(v: ByteView): (str: seq<byte>)
    ensures str == v.Content()
  {
    if v.b.Some? then v.b.value else v.s
  }

  /** Whichever representation holds them, the observers agree on the bytes. */
  lemma RepresentationIndependent(bytes: seq<byte>)
    ensures ByteSlice(OfBytes(bytes)) == ByteSlice(OfString(bytes))
    ensures String(OfBytes(bytes)) == String(OfString(bytes))
    ensures forall i :: 0 <= i < |bytes| ==> OfBytes(bytes).At(i) == OfString(bytes).At(i)
  {
  }

  /** The byte loop of `EqualString` when the view holds a slice: compares
      `bs` with `str` position by position. */
  method CompareBytes(bs: seq<byte>, str: seq<byte>) returns (eq: bool)
    requires |bs| == |str|
    ensures eq <==> bs == str
  {
    var i := 0;
    while i < |bs|
      invariant 0 <= i <= |bs|
      invariant bs[..i] == str[..i]
    {
      if str[i] != bs[i] {
        return false;
      }
      assert bs[..i + 1] == bs[..i] + [bs[i]];
      assert str[..i + 1] == str[..i] + [str[i]];
      i := i + 1;
    }
    assert bs == bs[..i] && str == str[..i];
    return true;
  }

  /** `EqualString(s)`: true iff the view's content equals the bytes of `str`. */
  method EqualString(v: ByteView, str: seq<byte>) returns (eq: bool)
    ensures eq <==> v.Content() == str
  {
    if v.b.None? {
      return v.s == str;
    }
    var l := v.Len();
    if |str| != l {
      return false;
    }
    eq := CompareBytes(v.b.value, str);
  }

  /** `EqualBytes(bytes)`: true iff the view's content equals `bytes`. */
  method EqualBytes(v: ByteView, bytes: seq<byte>) returns (eq: bool)
    ensures eq <==> v.Content() == bytes
  {
    if v.b.Some? {
      return v.b.value == bytes;
    }
    var l := v.Len();
    if l != |bytes| {
      return false;
    }
    eq := CompareBytes(bytes, v.s);
  }

  /** `Equal(other)`: content equality, whatever the two representations are. */
  method Equal(v: ByteView, other: ByteView) returns (eq: bool)
    ensures eq <==> v.Content() == other.Content()
  {
    if other.b.None? {
      eq := EqualString(v, other.s);
    } else {
      eq := EqualBytes(v, other.b.value);
    }
  }

  /** `Copy(dest)`: Go's `copy(dest, content)` writes the common prefix
      length of bytes and leaves the rest of `dest` as it was. */
  method Copy(v: ByteView, dest: array<byte>) returns (n: nat)
    modifies dest
    ensures n == if dest.Length < v.Len() then dest.Length else v.Len()
    ensures dest[..n] == v.Content()[..n]
    ensures dest[n..] == old(dest[n..])
  {
    var content := if v.b.Some? then v.b.value else v.s;
    n := if dest.Length < |content| then dest.Length else |content|;
    var i := 0;
    while i < n
      invariant 0 <= i <= n
      invariant dest[..i] == content[..i]
      invariant dest[i..] == old(dest[i..])
    {
      dest[i] := content[i];
      assert dest[..i + 1] == dest[..i] + [dest[i]];
      assert content[..i + 1] == content[..i] + [content[i]];
      assert dest[i + 1..] == old(dest[i..])[1..];
      i := i + 1;
    }
  }

  /** The error half of `ReadAt`'s result. */
  datatype ReadError = NoError | InvalidOffset | EOF

  /** `ReadAt(p, off)`, the `io.ReaderAt` rules: a negative offset is an
      error, an offset at or past the end is EOF with nothing read, and
      otherwise the bytes from `off` fill a prefix of `p`, with EOF when
      fewer than `len(p)` were available. */
  method ReadAt(v: ByteView, p: array<byte>, off: int) returns (n: nat, err: ReadError)
    modifies p
    ensures off < 0 ==> n == 0 && err == InvalidOffset && p[..] == old(p[..])
    ensures 0 <= off && v.Len() <= off ==> n == 0 && err == EOF && p[..] == old(p[..])
    ensures 0 <= off < v.Len() ==>
      && n == (if p.Length < v.Len() - off then p.Length else v.Len() - off)
      && p[..n] == v.Content()[off..off + n]
      && p[n..] == old(p[n..])
      && (err == EOF <==> n < p.Length)
      && (err != EOF ==> err == NoError)
  {
    if off < 0 {
      return 0, InvalidOffset;
    }
    if off >= v.Len() {
      return 0, EOF;
    }
    var rest := v.SliceFrom(off);
    n := Copy(rest, p);
    assert rest.Content()[..n] == v.Content()[off..off + n];
    err := if n < p.Length then EOF else NoError;
  }
}
