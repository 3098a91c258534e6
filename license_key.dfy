/** services/license/generator.go: licence keys are the first half of a
    SHA-256 digest in upper-case hex, shown to users in groups of four.
    The digest itself (of the machine code, the time and random text) is
    an input. */
module LicenseKeys {
  import opened Files

  /** Lower-case hex digit, as hex.EncodeToString writes it. */
  function LowerHexDigit(n: int): (c: char)
    requires 0 <= n < 16
    ensures '0' <= c <= '9' || 'a' <= c <= 'f'
  {
    if n < 10 then ('0' as int + n) as char else ('a' as int + n - 10) as char
  }

  /** strings.ToUpper on one character: ASCII letters only matter here. */
  function ToUpperChar(c: char): char {
    if 'a' <= c <= 'z' then (c as int - 32) as char else c
  }

  function ToUpper(s: string): (u: string)
    ensures |u| == |s|
    ensures forall i :: 0 <= i < |s| ==> u[i] == ToUpperChar(s[i])
  {
    seq(|s|, i requires 0 <= i < |s| => ToUpperChar(s[i]))
  }

  predicate IsUpperHex(c: char) {
    '0' <= c <= '9' || 'A' <= c <= 'F'
  }

  /** The value of an upper-case hex digit. */
  function HexValue(c: char): (n: int)
    requires IsUpperHex(c)
    ensures 0 <= n < 16
  {
    if c <= '9' then c as int - '0' as int else c as int - 'A' as int + 10
  }

  /** hex.EncodeToString: two digits per byte, high nibble first. */
  function HexEncode(b: Bytes): (s: string)
    ensures |s| == 2 * |b|
    ensures forall i :: 0 <= i < |b| ==>
              s[2 * i] == LowerHexDigit(b[i] as int / 16) && s[2 * i + 1] == LowerHexDigit(b[i] as int % 16)
    ensures forall j :: 0 <= j < |s| ==> '0' <= s[j] <= '9' || 'a' <= s[j] <= 'f'
    decreases |b|
  {
    if b == [] then []
    else
      var rest := HexEncode(b[1..]);
      assert forall i :: 1 <= i < |b| ==> b[i] == b[1..][i - 1];
      [LowerHexDigit(b[0] as int / 16), LowerHexDigit(b[0] as int % 16)] + rest
  }

  /** GenerateLicenseKey over the SHA-256 digest: 32 upper-case hex
      digits spelling out the digest's first 16 bytes. */
  function GenerateLicenseKey(digest: Bytes): (key: string)
    requires |digest| == 32
    ensures |key| == 32
    ensures forall i :: 0 <= i < 32 ==> IsUpperHex(key[i])
  {
    ToUpper(HexEncode(digest)[..32])
  }

  /** The key loses nothing of the half digest it shows: its digit pairs
      read back as the digest's first 16 bytes. */
  lemma LicenseKeyDecodes(digest: Bytes)
    requires |digest| == 32
    ensures forall i :: 0 <= i < 16 ==>
              HexValue(GenerateLicenseKey(digest)[2 * i]) * 16 + HexValue(GenerateLicenseKey(digest)[2 * i + 1]) ==
                digest[i] as int
  {
    var key := GenerateLicenseKey(digest);
    forall i | 0 <= i < 16
      ensures HexValue(key[2 * i]) * 16 + HexValue(key[2 * i + 1]) == digest[i] as int
    {
      var hi, lo := digest[i] as int / 16, digest[i] as int % 16;
      assert key[2 * i] == ToUpperChar(LowerHexDigit(hi));
      assert key[2 * i + 1] == ToUpperChar(LowerHexDigit(lo));
    }
  }

  /** The key depends only on the first half of the digest. */
  lemma SameHalfSameKey(d1: Bytes, d2: Bytes)
    requires |d1| == 32 && |d2| == 32
    requires d1[..16] == d2[..16]
    ensures GenerateLicenseKey(d1) == GenerateLicenseKey(d2)
  {
    var k1, k2 := GenerateLicenseKey(d1), GenerateLicenseKey(d2);
    var h1, h2 := HexEncode(d1), HexEncode(d2);
    forall j | 0 <= j < 32
      ensures k1[j] == k2[j]
    {
      var i := j / 2;
      assert d1[i] == d1[..16][i] == d2[..16][i] == d2[i];
      if j == 2 * i {
        assert h1[j] == h2[j];
      } else {
        assert j == 2 * i + 1;
        assert h1[j] == h2[j];
      }
    }
  }

  /** Equal keys come from digests with the same first half. */
  lemma SameKeySameHalf(d1: Bytes, d2: Bytes)
    requires |d1| == 32 && |d2| == 32
    requires GenerateLicenseKey(d1) == GenerateLicenseKey(d2)
    ensures d1[..16] == d2[..16]
  {
    LicenseKeyDecodes(d1);
    LicenseKeyDecodes(d2);
    forall i | 0 <= i < 16
      ensures d1[..16][i] == d2[..16][i]
    {
      assert d1[i] as int == d2[i] as int;
    }
  }

  /** Two keys are equal exactly when the digests' first halves are. */
  lemma LicenseKeyInjective(d1: Bytes, d2: Bytes)
    requires |d1| == 32 && |d2| == 32
    ensures GenerateLicenseKey(d1) == GenerateLicenseKey(d2) <==> d1[..16] == d2[..16]
  {
    if d1[..16] == d2[..16] {
      SameHalfSameKey(d1, d2);
    }
    if GenerateLicenseKey(d1) == GenerateLicenseKey(d2) {
      SameKeySameHalf(d1, d2);
    }
  }

  /** strings.Join(parts, sep) */
  function JoinWith(parts: seq<string>, sep: char): string
    decreases |parts|
  {
    if parts == [] then ""
    else if |parts| == 1 then parts[0]
    else parts[0] + [sep] + JoinWith(parts[1..], sep)
  }

  /** The concatenation of the parts. */
  function Concat(parts: seq<string>): string
    decreases |parts|
  {
    if parts == [] then "" else parts[0] + Concat(parts[1..])
  }

  lemma {:induction false} ConcatAppend(parts: seq<string>, x: string)
    ensures Concat(parts + [x]) == Concat(parts) + x
    decreases |parts|
  {
    if parts == [] {
      assert [] + [x] == [x];
    } else {
      assert (parts + [x])[1..] == parts[1..] + [x];
      ConcatAppend(parts[1..], x);
    }
  }

  /** Joining groups of four with a separator puts the separator at every
      fifth position and the groups' characters everywhere else. */
  lemma {:induction false} JoinLayout(parts: seq<string>, sep: char)
    requires parts != []
    requires forall g :: 0 <= g < |parts| ==> |parts[g]| == 4
    ensures |JoinWith(parts, sep)| == 5 * |parts| - 1
    ensures forall j :: 0 <= j < 5 * |parts| - 1 ==>
              JoinWith(parts, sep)[j] == if j % 5 == 4 then sep else parts[j / 5][j % 5]
    decreases |parts|
  {
    if |parts| > 1 {
      var rest := parts[1..];
      JoinLayout(rest, sep);
      var s := JoinWith(parts, sep);
      assert s == parts[0] + [sep] + JoinWith(rest, sep);
      forall j | 5 <= j < 5 * |parts| - 1
        ensures s[j] == if j % 5 == 4 then sep else parts[j / 5][j % 5]
      {
        assert s[j] == JoinWith(rest, sep)[j - 5];
        assert (j - 5) / 5 == j / 5 - 1 && (j - 5) % 5 == j % 5;
        assert rest[j / 5 - 1] == parts[j / 5];
      }
    }
  }

  /** Removing every '-' from a string. */
  function StripDashes(s: string): string
    decreases |s|
  {
    if s == [] then [] else (if s[0] == '-' then [] else [s[0]]) + StripDashes(s[1..])
  }

  lemma {:induction false} StripConcat(a: string, b: string)
    ensures StripDashes(a + b) == StripDashes(a) + StripDashes(b)
    decreases |a|
  {
    if a == [] {
      assert a + b == b;
    } else {
      assert (a + b)[0] == a[0] && (a + b)[1..] == a[1..] + b;
      StripConcat(a[1..], b);
    }
  }

  lemma {:induction false} StripPlain(a: string)
    requires '-' !in a
    ensures StripDashes(a) == a
    decreases |a|
  {
    if a != [] {
      assert a[0] in a;
      assert forall c :: c in a[1..] ==> c in a;
      StripPlain(a[1..]);
    }
  }

  /** A dash-free group followed by a dash loses only the dash. */
  lemma StripGroup(p: string, rest: string)
    requires '-' !in p
    ensures StripDashes(p + "-" + rest) == p + StripDashes(rest)
  {
    var dash := "-";
    StripDash();
    StripPlain(p);
    StripConcat(p, dash);
    assert StripDashes(p + dash) == p;
    StripConcat(p + dash, rest);
  }

  lemma StripDash()
    ensures StripDashes("-") == []
  {
    assert "-"[1..] == [];
  }

  /** Removing the dashes from dash-joined parts that hold none gives the
      parts back, concatenated. */
  lemma {:induction false} StripJoin(parts: seq<string>)
    requires forall g :: 0 <= g < |parts| ==> '-' !in parts[g]
    ensures StripDashes(JoinWith(parts, '-')) == Concat(parts)
    decreases |parts|
  {
    if parts == [] {
    } else if |parts| == 1 {
      StripPlain(parts[0]);
      assert Concat(parts[1..]) == "";
    } else {
      StripJoin(parts[1..]);
      StripGroup(parts[0], JoinWith(parts[1..], '-'));
    }
  }

  /** The characters of `key` a formatted key shows at position `j`. */
  predicate FormattedLayout(key: string, s: string)
    requires |key| >= 32
  {
    |s| == 39 && forall j :: 0 <= j < 39 ==> s[j] == if j % 5 == 4 then '-' else key[j - j / 5]
  }

  /** FormatLicenseKey: a key shorter than 32 characters comes back as it
      is; otherwise its first 32 characters come back in 8 groups of 4
      joined by 7 dashes, and the rest is dropped. */
  method FormatLicenseKey(key: string) returns (s: string)
    ensures |key| < 32 ==> s == key
    ensures |key| >= 32 ==> FormattedLayout(key, s)
    ensures |key| >= 32 && '-' !in key[..32] ==> StripDashes(s) == key[..32]
  {
    if |key| < 32 {
      return key;
    }
    var parts: seq<string> := [];
    var i := 0;
    while i < 32
      invariant 0 <= i <= 32 && i % 4 == 0
      invariant |parts| == i / 4
      invariant forall g :: 0 <= g < |parts| ==> parts[g] == key[4 * g..4 * g + 4]
      invariant Concat(parts) == key[..i]
    {
      ConcatAppend(parts, key[i..i + 4]);
      assert key[..i + 4] == key[..i] + key[i..i + 4];
      parts := parts + [key[i..i + 4]];
      i := i + 4;
    }
    s := JoinWith(parts, '-');
    JoinLayout(parts, '-');
    forall j | 0 <= j < 39 && j % 5 != 4
      ensures s[j] == key[j - j / 5]
    {
      assert parts[j / 5][j % 5] == key[4 * (j / 5) + j % 5];
    }
    if '-' !in key[..32] {
      forall g | 0 <= g < |parts|
        ensures '-' !in parts[g]
      {
        assert forall c :: c in parts[g] ==> c in key[..32];
      }
      StripJoin(parts);
    }
  }

  /** A key made by GenerateLicenseKey formats to 39 characters whose
      dashes, removed, give the key back. */
  method FormatGeneratedKey(digest: Bytes) returns (s: string)
    requires |digest| == 32
    ensures |s| == 39
    ensures StripDashes(s) == GenerateLicenseKey(digest)
  {
    var key := GenerateLicenseKey(digest);
    assert key[..32] == key;
    assert forall c :: c in key ==> IsUpperHex(c);
    s := FormatLicenseKey(key);
  }
}
