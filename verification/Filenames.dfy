/** The length cap on attachment file names, over the bytes of their UTF-8 form. */
module Filenames {

  const MAX_FILENAME_BYTES := 200

  type Octet = b: int | 0 <= b < 0x100

  predicate Continuation(b: Octet)
  {
    0x80 <= b <= 0xBF
  }

  /** utf8.RuneStart. */
  predicate RuneStart(b: Octet)
  {
    !Continuation(b)
  }

  /** Length of the rune at the front of s, 0 when there is none (table 3-7 of the Unicode
      standard: no overlong forms, no surrogates, nothing above U+10FFFF). */
  function RuneLen(s: seq<Octet>): (n: nat)
    ensures n <= |s| && n <= 4
    ensures n > 0 ==> RuneStart(s[0]) && forall i :: 1 <= i < n ==> Continuation(s[i])
  {
    if |s| >= 1 && s[0] <= 0x7F then 1
    else if |s| >= 2 && 0xC2 <= s[0] <= 0xDF && Continuation(s[1]) then 2
    else if |s| >= 3 && 0xE0 <= s[0] <= 0xEF && Continuation(s[1]) && Continuation(s[2])
         && (s[0] == 0xE0 ==> s[1] >= 0xA0) && (s[0] == 0xED ==> s[1] <= 0x9F) then 3
    else if |s| >= 4 && 0xF0 <= s[0] <= 0xF4 && Continuation(s[1]) && Continuation(s[2]) && Continuation(s[3])
         && (s[0] == 0xF0 ==> s[1] >= 0x90) && (s[0] == 0xF4 ==> s[1] <= 0x8F) then 4
    else 0
  }

  predicate Valid(s: seq<Octet>)
  {
    s == [] || (RuneLen(s) > 0 && Valid(s[RuneLen(s)..]))
  }

  /** UTF-8 of a Unicode scalar value: its digits in base 64 behind a length mark. */
  function Encode(cp: nat): (s: seq<Octet>)
    requires cp <= 0x10FFFF && !(0xD800 <= cp <= 0xDFFF)
    ensures 1 <= |s| <= 4
  {
    var b: int := cp / 0x40;
    var c: int := b / 0x40;
    var d: int := c / 0x40;
    if cp < 0x80 then [cp]
    else if cp < 0x800 then [0xC0 + b, 0x80 + cp % 0x40]
    else if cp < 0x10000 then [0xE0 + c, 0x80 + b % 0x40, 0x80 + cp % 0x40]
    else [0xF0 + d, 0x80 + c % 0x40, 0x80 + b % 0x40, 0x80 + cp % 0x40]
  }

  /** The front of a text is a rune exactly when it is the encoding of a scalar value. */
  lemma EncodingIsRune(s: seq<Octet>, cp: nat)
    requires cp <= 0x10FFFF && !(0xD800 <= cp <= 0xDFFF)
    requires |Encode(cp)| <= |s| && forall i :: 0 <= i < |Encode(cp)| ==> s[i] == Encode(cp)[i]
    ensures RuneLen(s) == |Encode(cp)|
  {
    assert s[0] == Encode(cp)[0];
    if cp >= 0x80 {
      assert s[1] == Encode(cp)[1];
    }
    if cp >= 0x800 {
      assert s[2] == Encode(cp)[2];
    }
    if cp >= 0x10000 {
      assert s[3] == Encode(cp)[3];
    }
  }

  lemma RuneIsEncoding(s: seq<Octet>) returns (cp: nat)
    requires RuneLen(s) > 0
    ensures cp <= 0x10FFFF && !(0xD800 <= cp <= 0xDFFF) && s[..RuneLen(s)] == Encode(cp)
  {
    var first: int := s[0];
    if RuneLen(s) == 1 {
      cp := first;
      assert s[..1] == [cp];
    } else if RuneLen(s) == 2 {
      cp := Append64(first - 0xC0, s[1]);
      assert 2 <= cp / 0x40 == first - 0xC0 < 0x20 && 0x80 <= cp < 0x800;
      assert s[..2] == [0xC0 + cp / 0x40, 0x80 + cp % 0x40];
    } else {
      cp := LongRune(s);
    }
  }

  lemma LongRune(s: seq<Octet>) returns (cp: nat)
    requires RuneLen(s) >= 3
    ensures cp <= 0x10FFFF && !(0xD800 <= cp <= 0xDFFF) && s[..RuneLen(s)] == Encode(cp)
  {
    var first: int := s[0];
    if RuneLen(s) == 3 {
      var b := Append64(first - 0xE0, s[1]);
      cp := Append64(b, s[2]);
      assert cp / 0x40 == b && 0x800 <= cp < 0x10000;
    } else {
      var c := Append64(first - 0xF0, s[1]);
      var b := Append64(c, s[2]);
      assert b / 0x40 == c && 0x10 <= c <= 0x10F;
      cp := Append64(b, s[3]);
      assert cp / 0x40 == b && 0x10000 <= cp <= 0x10FFFF;
    }
  }

  /** One more digit in base 64, from a continuation byte. */
  function Append64(high: nat, b: int): (n: nat)
    requires 0x80 <= b <= 0xBF
    ensures n / 0x40 == high && n % 0x40 == b - 0x80 && n == 0x40 * high + (b - 0x80)
  {
    0x40 * high + (b - 0x80)
  }

  lemma RuneLenLocal(s: seq<Octet>, t: seq<Octet>)
    requires RuneLen(s) > 0 && RuneLen(s) <= |t| && t[..RuneLen(s)] == s[..RuneLen(s)]
    ensures RuneLen(t) == RuneLen(s)
  {
    var n := RuneLen(s);
    assert forall i :: 0 <= i < n ==> t[i] == t[..n][i] == s[..n][i] == s[i];
  }

  /** A valid text may be cut before any rune start. */
  lemma {:induction false} CutAtRune(s: seq<Octet>, k: nat)
    requires Valid(s) && k <= |s| && (k < |s| ==> RuneStart(s[k]))
    ensures Valid(s[..k]) && Valid(s[k..])
    decreases |s|
  {
    if k == 0 {
      assert s[..0] == [] && s[0..] == s;
    } else {
      var n := RuneLen(s);
      assert k >= n;
      CutAtRune(s[n..], k - n);
      assert s[n..][k - n..] == s[k..];
      assert s[..k][n..] == s[n..][..k - n];
      assert s[..k][..n] == s[..n];
      RuneLenLocal(s, s[..k]);
    }
  }

  lemma {:induction false} ValidConcat(a: seq<Octet>, b: seq<Octet>)
    requires Valid(a) && Valid(b)
    ensures Valid(a + b)
    decreases |a|
  {
    if a == [] {
      assert a + b == b;
    } else {
      ValidConcat(a[RuneLen(a)..], b);
      FrontOfConcat(a, b);
    }
  }

  lemma FrontOfConcat(a: seq<Octet>, b: seq<Octet>)
    requires RuneLen(a) > 0
    ensures RuneLen(a + b) == RuneLen(a) && (a + b)[RuneLen(a)..] == a[RuneLen(a)..] + b
  {
    var n := RuneLen(a);
    assert (a + b)[..n] == a[..n];
    RuneLenLocal(a, a + b);
  }

  /** A rune start is never more than three bytes back. */
  lemma {:induction false} RuneStartNear(s: seq<Octet>, k: nat) returns (j: nat)
    requires Valid(s) && k < |s|
    ensures k - 3 <= j <= k && RuneStart(s[j]) && forall i :: j < i <= k ==> !RuneStart(s[i])
    decreases |s|
  {
    var n := RuneLen(s);
    if k < n {
      j := 0;
    } else {
      var rest := RuneStartNear(s[n..], k - n);
      j := rest + n;
      forall i | j < i <= k ensures !RuneStart(s[i]) {
        assert s[i] == s[n..][i - n];
      }
    }
  }

  /** Where the extension starts: the last dot of the last path element. */
  function ExtAt(s: seq<Octet>): (i: nat)
    ensures i <= |s|
    ensures i < |s| ==> s[i] == '.' as int && forall j :: i < j < |s| ==> s[j] != '.' as int && s[j] != '/' as int
    ensures i == |s| ==> forall j :: 0 <= j < |s| && s[j] == '.' as int ==>
      exists k :: j < k < |s| && s[k] == '/' as int
  {
    if s == [] then 0
    else
      var n := |s| - 1;
      if s[n] == '/' as int then |s|
      else if s[n] == '.' as int then n
      else
        var i := ExtAt(s[..n]);
        if i == n then |s| else i
  }

  function Ext(s: seq<Octet>): seq<Octet>
  {
    s[ExtAt(s)..]
  }

  /** filepath.Ext scans back from the end. */
  method FindExt(s: seq<Octet>) returns (ext: seq<Octet>)
    ensures ext == Ext(s)
  {
    var i := |s|;
    while i > 0 && s[i - 1] != '/' as int
      invariant 0 <= i <= |s|
      invariant forall j :: i <= j < |s| ==> s[j] != '/' as int && s[j] != '.' as int
    {
      if s[i - 1] == '.' as int {
        ExtUnique(s, i - 1);
        return s[i - 1..];
      }
      i := i - 1;
    }
    NoExt(s, i);
    ext := [];
  }

  lemma ExtUnique(s: seq<Octet>, i: nat)
    requires i < |s| && s[i] == '.' as int && forall j :: i < j < |s| ==> s[j] != '.' as int && s[j] != '/' as int
    ensures ExtAt(s) == i
  {
  }

  lemma NoExt(s: seq<Octet>, i: nat)
    requires i <= |s| && forall j :: i <= j < |s| ==> s[j] != '/' as int && s[j] != '.' as int
    requires i > 0 ==> s[i - 1] == '/' as int
    ensures ExtAt(s) == |s|
  {
  }

  lemma ExtIsRunes(s: seq<Octet>)
    requires Valid(s)
    ensures Valid(s[..ExtAt(s)]) && Valid(Ext(s))
  {
    CutAtRune(s, ExtAt(s));
  }

  /** The tail of safeFilename, from the cleaned name on.  Every name that is too long is
      cut to the longest run of whole runes that fits beside the extension; an extension
      of at most 100 bytes survives and the result loses at most three bytes to the cut. */
  method Truncate(cleaned: seq<Octet>) returns (r: seq<Octet>)
    requires Valid(cleaned)
    ensures |cleaned| <= 200 ==> r == cleaned
    ensures |cleaned| > 200 ==> Valid(r) && 197 <= |r| <= 200
    ensures |cleaned| > 200 ==>
      var ext := if |cleaned| - ExtAt(cleaned) <= 100 then cleaned[ExtAt(cleaned)..] else [];
      && |ext| <= |r| && r == cleaned[..|r| - |ext|] + ext
      && forall p :: |r| - |ext| < p <= 200 - |ext| ==> 0x80 <= cleaned[p] <= 0xBF
  {
    if |cleaned| <= MAX_FILENAME_BYTES {
      return cleaned;
    }
    var ext := KeptExt(cleaned);
    r := CutBeside(cleaned, ext);
  }

  /** The extension, unless it takes more than half of the cap. */
  method KeptExt(cleaned: seq<Octet>) returns (ext: seq<Octet>)
    requires Valid(cleaned)
    ensures ext == if |cleaned| - ExtAt(cleaned) <= 100 then cleaned[ExtAt(cleaned)..] else []
    ensures Valid(cleaned[..|cleaned| - |ext|]) && Valid(ext)
  {
    ext := FindExt(cleaned);
    if |ext| > MAX_FILENAME_BYTES / 2 {
      ext := [];
      assert cleaned[..|cleaned|] == cleaned;
    } else {
      ExtIsRunes(cleaned);
      assert |cleaned| - |ext| == ExtAt(cleaned);
    }
  }

  /** Cut the name to what fits beside the extension. */
  method CutBeside(cleaned: seq<Octet>, ext: seq<Octet>) returns (r: seq<Octet>)
    requires |ext| <= MAX_FILENAME_BYTES / 2 && MAX_FILENAME_BYTES < |cleaned|
    requires Valid(cleaned[..|cleaned| - |ext|]) && Valid(ext)
    ensures Valid(r) && 197 <= |r| <= MAX_FILENAME_BYTES && r == cleaned[..|r| - |ext|] + ext
    ensures forall p :: |r| - |ext| < p <= MAX_FILENAME_BYTES - |ext| ==> !RuneStart(cleaned[p])
  {
    var keep := MAX_FILENAME_BYTES - |ext|;
    var base := cleaned[..|cleaned| - |ext|];
    if keep > |base| {
      keep := |base|;
    }
    keep := SnapBack(base, keep);
    r := base[..keep] + ext;
    ValidConcat(base[..keep], ext);
    Cut(r, cleaned, base, ext, keep);
  }

  lemma Cut(r: seq<Octet>, name: seq<Octet>, base: seq<Octet>, ext: seq<Octet>, keep: nat)
    requires |ext| <= |name| && base == name[..|name| - |ext|] && keep <= |base| && r == base[..keep] + ext
    ensures |r| == keep + |ext| && r == name[..keep] + ext
    ensures forall p :: 0 <= p < |base| ==> base[p] == name[p]
  {
  }

  /** Back off to a rune start. */
  method SnapBack(base: seq<Octet>, limit: nat) returns (keep: nat)
    requires Valid(base) && limit < |base|
    ensures limit - 3 <= keep <= limit && Valid(base[..keep])
    ensures forall p :: keep < p <= limit ==> !RuneStart(base[p])
  {
    ghost var near := RuneStartNear(base, limit);
    keep := limit;
    while keep > 0 && !RuneStart(base[keep])
      invariant near <= keep <= limit
      invariant forall p :: keep < p <= limit ==> !RuneStart(base[p])
    {
      keep := keep - 1;
    }
    if keep == 0 {
      assert base[..0] == [];
    } else {
      CutAtRune(base, keep);
    }
  }
}
