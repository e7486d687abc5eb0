/** Byte strings in fixed-width, NUL-padded fields, as the host (Go) and the guest (C) write and read them. */
module CText {
  import opened Basics

  type Str = seq<byte>

  function Zeros(n: nat): (z: Str)
    ensures |z| == n && forall i :: 0 <= i < n ==> z[i] == 0
  {
    seq(n, i => 0)
  }

  function Ascii(s: string): (r: Str)
    ensures |r| == |s|
  {
    seq(|s|, i requires 0 <= i < |s| => if s[i] < 128 as char then s[i] as int else 63)
  }

  /** The text a C reader sees: everything before the first NUL. */
  function Cut(s: Str): (r: Str)
    ensures r <= s && 0 !in r
    ensures |r| < |s| ==> s[|r|] == 0
  {
    if s == [] || s[0] == 0 then [] else [s[0]] + Cut(s[1..])
  }

  lemma {:induction false} CutUnique(s: Str, r: Str)
    requires r <= s && 0 !in r && (|r| < |s| ==> s[|r|] == 0)
    ensures Cut(s) == r
  {
    if r != [] {
      CutUnique(s[1..], r[1..]);
    }
  }

  /** What of a text fits a buffer of `w` bytes that keeps room for the NUL. */
  function Limit(w: nat, s: Str): (r: Str)
    requires w > 0
    ensures r <= s && |r| < w
  {
    if |s| < w then s else s[..w - 1]
  }

  /** What a string becomes on its way through a field of `w` bytes to a reader with a buffer of `w` bytes. */
  function Arrives(w: nat, s: Str): (r: Str)
    requires w > 0
    ensures |r| < w && 0 !in r && r <= s
  {
    Limit(w, Cut(s))
  }

  /** It arrives unchanged exactly if it is NUL-free and strictly shorter than the field. */
  lemma ArrivesIff(w: nat, s: Str)
    requires w > 0
    ensures Arrives(w, s) == s <==> |s| < w && 0 !in s
  {
    if 0 !in s {
      CutUnique(s, s);
    }
  }

  /** copyCString: the host's writer into a zeroed field; it refuses only what is longer than the field. */
  function CString(w: nat, s: Str): (r: Option<Str>)
    ensures r.Some? <==> |s| <= w
    ensures r.Some? ==> |r.value| == w
  {
    if |s| > w then None else Some(s + Zeros(w - |s|))
  }

  /** mkga_copy_bounded_string reading a whole field: the guest sees the text up to the NUL, at most w - 1 bytes. */
  lemma CStringArrives(w: nat, s: Str)
    requires 0 < w && |s| <= w
    ensures Arrives(w, CString(w, s).value) == Arrives(w, s)
  {
    var f := CString(w, s).value;
    assert f[..|s|] == s;
    assert |Cut(s)| < |f| ==> f[|Cut(s)|] == if |Cut(s)| < |s| then s[|Cut(s)|] else 0;
    CutUnique(f, Cut(s));
  }

  /** mkga_copy_string: the guest's writer into a zeroed field. */
  function Stored(w: nat, s: Str): (r: Str)
    requires w > 0
    ensures |r| == w
  {
    Arrives(w, s) + Zeros(w - |Arrives(w, s)|)
  }

  /** The host reads back what of the guest's text fitted. */
  lemma StoredReadBack(w: nat, s: Str)
    requires w > 0
    ensures Cut(Stored(w, s)) == Arrives(w, s)
  {
    CutUnique(Stored(w, s), Arrives(w, s));
  }

  /** copyCString on the field of `w` bytes at offset `at` of a buffer; what is too long is refused untouched. */
  method CopyCString(dst: array<byte>, at: nat, w: nat, value: Str) returns (ok: bool)
    requires at + w <= dst.Length
    requires forall i :: at <= i < at + w ==> dst[i] == 0
    modifies dst
    ensures ok <==> CString(w, value).Some?
    ensures ok ==> dst[at..at + w] == CString(w, value).value
    ensures !ok ==> dst[..] == old(dst[..])
    ensures dst[..at] == old(dst[..at]) && dst[at + w..] == old(dst[at + w..])
  {
    if |value| > w {
      return false;
    }
    for k := 0 to |value|
      invariant forall i :: 0 <= i < k ==> dst[at + i] == value[i]
      invariant forall i :: 0 <= i < dst.Length && !(at <= i < at + k) ==> dst[i] == old(dst[i])
    {
      dst[at + k] := value[k];
    }
    return true;
  }

  /** mkga_copy_bounded_string into a buffer of its own. */
  method CopyBoundedString(dst: array<byte>, src: Str)
    modifies dst
    ensures dst.Length > 0 ==> Cut(dst[..]) == Arrives(dst.Length, src)
    ensures dst.Length > 0 ==> dst[|Arrives(dst.Length, src)|] == 0
  {
    if dst.Length == 0 {
      return;
    }
    var copyLen := 0;
    while copyLen < |src| && src[copyLen] != 0
      invariant 0 <= copyLen <= |src|
      invariant 0 !in src[..copyLen]
    {
      copyLen := copyLen + 1;
    }
    CutUnique(src, src[..copyLen]);
    if copyLen >= dst.Length {
      copyLen := dst.Length - 1;
    }
    assert src[..copyLen] == Arrives(dst.Length, src);
    for i := 0 to copyLen
      invariant dst[..i] == src[..i]
    {
      dst[i] := src[i];
    }
    dst[copyLen] := 0;
    assert dst[..][..copyLen] == src[..copyLen];
    CutUnique(dst[..], src[..copyLen]);
  }

  // Decimal numbers.

  function Digits(n: nat): (r: Str)
    ensures |r| > 0 && forall d :: d in r ==> 48 <= d <= 57
  {
    (if n < 10 then [] else Digits(n / 10)) + [48 + n % 10]
  }

  function Decimal(n: int): (r: Str) {
    if n < 0 then [45] + Digits(0 - n) else Digits(n)
  }
}
