/**
 Cleaning of captured command output: cut to the size cap at a character boundary, drop NUL bytes,
 then decode as UTF-8 and drop whatever is malformed.

 Well-formedness is the grammar of section 4 of RFC 3629.  The error length is the one Rust's
 `from_utf8` reports: how many bytes of a malformed sequence to skip, or nothing when the input ends
 inside a sequence that could still have been completed.
 */
module CleanOutput {
  import opened Options

  type Byte = b: int | 0 <= b < 0x100

  type Bytes = seq<Byte>

  const MAX_OUTPUT_SIZE: nat := 10 * 1024 * 1024

  // ---------------------------------------------------------------------------------------------
  // UTF-8 (RFC 3629, section 4)
  // ---------------------------------------------------------------------------------------------

  /** UTF8-tail. */
  predicate IsTail(b: Byte) {
    0x80 <= b <= 0xBF
  }

  /** The mask by which the truncation loop recognises a tail byte. */
  lemma MaskSelectsTails(b: bv8)
    ensures b & 0xC0 == 0x80 <==> IsTail(b as int)
  {
    assert b & 0xC0 == 0x80 <==> 0x80 <= b <= 0xBF;
  }

  /** The second byte of a three- or four-byte encoding: some leads narrow its range. */
  predicate SecondOk(lead: Byte, b: Byte) {
    || (lead == 0xE0 && 0xA0 <= b <= 0xBF)
    || (0xE1 <= lead <= 0xEC && IsTail(b))
    || (lead == 0xED && 0x80 <= b <= 0x9F)
    || (0xEE <= lead <= 0xEF && IsTail(b))
    || (lead == 0xF0 && 0x90 <= b <= 0xBF)
    || (0xF1 <= lead <= 0xF3 && IsTail(b))
    || (lead == 0xF4 && 0x80 <= b <= 0x8F)
  }

  /** UTF8-1, UTF8-2, UTF8-3 and UTF8-4: the encodings of one character. */
  predicate IsChar(c: Bytes) {
    || (|c| == 1 && c[0] <= 0x7F)
    || (|c| == 2 && 0xC2 <= c[0] <= 0xDF && IsTail(c[1]))
    || (|c| == 3 && SecondOk(c[0], c[1]) && 0xE0 <= c[0] <= 0xEF && IsTail(c[2]))
    || (|c| == 4 && SecondOk(c[0], c[1]) && 0xF0 <= c[0] <= 0xF4 && IsTail(c[2]) && IsTail(c[3]))
  }

  function Flatten(chars: seq<Bytes>): Bytes {
    if chars == [] then [] else chars[0] + Flatten(chars[1..])
  }

  /** UTF8-octets: a sequence of characters. */
  ghost predicate WellFormed(s: Bytes) {
    exists chars: seq<Bytes> :: (forall c :: c in chars ==> IsChar(c)) && Flatten(chars) == s
  }

  // ---------------------------------------------------------------------------------------------
  // from_utf8
  // ---------------------------------------------------------------------------------------------

  /** What the validator finds at the front of its input: a character, a malformed sequence of a
      given length, or an input that ends too early. */
  datatype Front = Char(len: nat) | Malformed(len: nat) | Incomplete

  function CharWidth(lead: Byte): nat {
    if lead <= 0x7F then 1
    else if lead <= 0xC1 then 0
    else if lead <= 0xDF then 2
    else if lead <= 0xEF then 3
    else if lead <= 0xF4 then 4
    else 0
  }

  function Scan(s: Bytes): (f: Front)
    requires s != []
    ensures !f.Incomplete? ==> 1 <= f.len <= |s|
  {
    var w := CharWidth(s[0]);
    if w == 0 then Malformed(1)
    else if w == 1 then Char(1)
    else if |s| < 2 then Incomplete
    else if w == 2 then (if IsTail(s[1]) then Char(2) else Malformed(1))
    else if !SecondOk(s[0], s[1]) then Malformed(1)
    else if |s| < 3 then Incomplete
    else if !IsTail(s[2]) then Malformed(2)
    else if w == 3 then Char(3)
    else if |s| < 4 then Incomplete
    else if !IsTail(s[3]) then Malformed(3)
    else Char(4)
  }

  /** `validUpTo` and `errorLen` of the error; an input without an error has `valid`. */
  datatype Utf8Result = Valid | Error(validUpTo: nat, errorLen: Option<nat>)

  function FromUtf8(s: Bytes): (r: Utf8Result)
    ensures r.Error? ==> r.validUpTo < |s| && r.validUpTo + r.errorLen.Or(Some(0)).value <= |s|
    ensures r.Error? && r.errorLen.Some? ==> r.errorLen.value > 0
  {
    if s == [] then Valid else
    match Scan(s)
    case Char(n) =>
      (match FromUtf8(s[n..])
       case Valid => Valid
       case Error(k, e) => Error(n + k, e))
    case Malformed(n) => Error(0, Some(n))
    case Incomplete => Error(0, None)
  }

  // ---------------------------------------------------------------------------------------------
  // clean_string
  // ---------------------------------------------------------------------------------------------

  /** Where the truncation loop stops when it starts at `end`. */
  function CutAt(bytes: Bytes, end: nat): (e: nat)
    requires end < |bytes|
    ensures e <= end && (e == 0 || !IsTail(bytes[e]))
    ensures forall i :: e < i <= end ==> IsTail(bytes[i])
  {
    if end > 0 && IsTail(bytes[end]) then CutAt(bytes, end - 1) else end
  }

  function Truncate(bytes: Bytes): (t: Bytes)
    ensures t <= bytes && |t| <= 10 * 1024 * 1024
    ensures |bytes| <= 10 * 1024 * 1024 ==> t == bytes
    ensures |bytes| > 10 * 1024 * 1024 ==>
              (t == [] || !IsTail(bytes[|t|])) && forall i :: |t| < i <= 10 * 1024 * 1024 ==> IsTail(bytes[i])
  {
    if |bytes| > MAX_OUTPUT_SIZE then bytes[..CutAt(bytes, MAX_OUTPUT_SIZE)] else bytes
  }

  function DropNul(s: Bytes): (r: Bytes)
    ensures 0 !in r && |r| <= |s|
  {
    if s == [] then [] else (if s[0] == 0 then [] else [s[0]]) + DropNul(s[1..])
  }

  /** Characters are kept, malformed sequences skipped, an incomplete end dropped. */
  function Decode(s: Bytes): Bytes {
    if s == [] then [] else
    match Scan(s)
    case Char(n) => s[..n] + Decode(s[n..])
    case Malformed(n) => Decode(s[n..])
    case Incomplete => []
  }

  function Clean(bytes: Bytes): Bytes {
    Decode(DropNul(Truncate(bytes)))
  }

  lemma Associative(a: Bytes, b: Bytes, c: Bytes)
    ensures (a + b) + c == a + (b + c)
  {
  }

  // ---------------------------------------------------------------------------------------------
  // The validator against the grammar
  // ---------------------------------------------------------------------------------------------

  /** The encoding of a character starts `s`. */
  predicate StartsWithChar(s: Bytes, n: nat) {
    n <= |s| && IsChar(s[..n])
  }

  /** `Scan` finds a character exactly when one is there; what it skips contains none: after its
      first byte only tail bytes follow, and those start no character. */
  lemma ScanIsExact(s: Bytes)
    requires s != []
    ensures forall n :: StartsWithChar(s, n) <==> Scan(s) == Char(n)
    ensures Scan(s).Malformed? ==> forall i :: 1 <= i < Scan(s).len ==> IsTail(s[i])
    ensures Scan(s).Incomplete? ==> forall i :: 1 <= i < |s| ==> IsTail(s[i])
  {
  }

  /** `s` can be completed to a character. */
  ghost predicate Begins(s: Bytes) {
    exists c :: IsChar(c) && |s| < |c| && s == c[..|s|]
  }

  function LeastSecond(lead: Byte): Byte {
    if lead == 0xE0 then 0xA0 else if lead == 0xF0 then 0x90 else 0x80
  }

  function Completed(s: Bytes): Bytes
    requires 1 <= |s| < CharWidth(s[0])
  {
    if CharWidth(s[0]) == 2 then [s[0], 0x80]
    else
      var second := if |s| >= 2 then s[1] else LeastSecond(s[0]);
      if CharWidth(s[0]) == 3 then [s[0], second, 0x80]
      else [s[0], second, if |s| == 3 then s[2] else 0x80, 0x80]
  }

  /** A proper beginning of two or more bytes ends before the last. */
  lemma BeginsIff(s: Bytes)
    requires 1 <= |s| <= 3
    ensures Begins(s) <==>
            && |s| < CharWidth(s[0])
            && (|s| >= 2 ==> if CharWidth(s[0]) == 2 then IsTail(s[1]) else SecondOk(s[0], s[1]))
            && (|s| == 3 ==> IsTail(s[2]))
  {
    if |s| < CharWidth(s[0]) && (|s| >= 2 ==> SecondOk(s[0], s[1])) && (|s| == 3 ==> IsTail(s[2])) {
      var c := Completed(s);
      assert IsChar(c) && s == c[..|s|];
    }
  }

  lemma NothingLongerBegins(s: Bytes)
    requires |s| == 4
    ensures !Begins(s)
  {
  }

  /** What is skipped at once is the longest beginning of a character, or a single byte; and the input ends too
      early exactly if all of it is one. */
  lemma SkipsLongestBeginning(s: Bytes)
    requires s != []
    ensures Scan(s).Malformed? ==>
              var n := Scan(s).len;
              && n < 4 && (n == 1 || Begins(s[..n]))
              && (n < |s| ==> !Begins(s[..n + 1]) && !IsChar(s[..n + 1]))
    ensures Scan(s).Incomplete? <==> |s| < 4 && Begins(s)
  {
    if |s| < 4 {
      BeginsIff(s);
    }
    BeginsIff(s[..1]);
    if |s| >= 2 {
      BeginsIff(s[..2]);
    }
    if |s| >= 3 {
      BeginsIff(s[..3]);
    }
    if |s| >= 4 {
      NothingLongerBegins(s[..4]);
    }
  }

  lemma {:induction false} FlattenWellFormed(c: Bytes, s: Bytes)
    requires IsChar(c) && WellFormed(s)
    ensures WellFormed(c + s)
  {
    var chars: seq<Bytes> :| (forall d :: d in chars ==> IsChar(d)) && Flatten(chars) == s;
    assert Flatten([c] + chars) == c + s by { assert ([c] + chars)[1..] == chars; }
  }

  lemma WellFormedFront(s: Bytes)
    requires s != [] && WellFormed(s)
    ensures Scan(s).Char? && WellFormed(s[Scan(s).len..])
  {
    var chars: seq<Bytes> :| (forall c :: c in chars ==> IsChar(c)) && Flatten(chars) == s;
    var c := chars[0];
    assert s[..|c|] == c && s[|c|..] == Flatten(chars[1..]);
    ScanIsExact(s);
    assert StartsWithChar(s, |c|);
    assert forall d :: d in chars[1..] ==> IsChar(d);
  }

  /** The validator accepts exactly the grammar. */
  lemma {:induction false} ValidIsWellFormed(s: Bytes)
    ensures FromUtf8(s).Valid? <==> WellFormed(s)
    decreases |s|
  {
    if s == [] {
      assert Flatten([]) == s;
    } else {
      ScanIsExact(s);
      if Scan(s).Char? {
        var n := Scan(s).len;
        ValidIsWellFormed(s[n..]);
        if WellFormed(s[n..]) {
          FlattenWellFormed(s[..n], s[n..]);
          assert s[..n] + s[n..] == s;
        }
      }
      if WellFormed(s) {
        WellFormedFront(s);
      }
    }
  }

  /** A character in front does not change whether the rest is valid. */
  lemma ValidCons(c: Bytes, s: Bytes)
    requires IsChar(c)
    ensures Scan(c + s) == Char(|c|)
    ensures FromUtf8(c + s).Valid? <==> FromUtf8(s).Valid?
  {
    assert (c + s)[..|c|] == c && (c + s)[|c|..] == s;
    ScanIsExact(c + s);
    assert StartsWithChar(c + s, |c|);
  }

  lemma FrontChar(s: Bytes) returns (c: Bytes, rest: Bytes)
    requires s != [] && Scan(s).Char?
    ensures s == c + rest && IsChar(c) && |c| == Scan(s).len && c != []
  {
    c, rest := s[..Scan(s).len], s[Scan(s).len..];
    ScanIsExact(s);
  }

  // ---------------------------------------------------------------------------------------------
  // The grammar against the bit layout (RFC 3629, section 3)
  // ---------------------------------------------------------------------------------------------

  /** The code points that UTF-8 encodes: all but the surrogates. */
  type Scalar = v: int | 0 <= v <= 0x10FFFF && !(0xD800 <= v <= 0xDFFF)

  /** The bits of `v`, six to a byte from the last byte on, with the length in the first byte. */
  function Encoded(v: Scalar): Bytes {
    if v < 0x80 then [v]
    else if v < 0x800 then [0xC0 + v / 0x40, 0x80 + v % 0x40]
    else if v < 0x1_0000 then [0xE0 + v / 0x1000, 0x80 + v / 0x40 % 0x40, 0x80 + v % 0x40]
    else [0xF0 + v / 0x4_0000, 0x80 + v / 0x1000 % 0x40, 0x80 + v / 0x40 % 0x40, 0x80 + v % 0x40]
  }

  /** The bits back together. */
  function Value(c: Bytes): int
    requires 1 <= |c| <= 4
  {
    if |c| == 1 then c[0]
    else if |c| == 2 then (c[0] as int - 0xC0) * 0x40 + (c[1] as int - 0x80)
    else if |c| == 3 then (c[0] as int - 0xE0) * 0x1000 + (c[1] as int - 0x80) * 0x40 + (c[2] as int - 0x80)
    else (c[0] as int - 0xF0) * 0x4_0000 + (c[1] as int - 0x80) * 0x1000 + (c[2] as int - 0x80) * 0x40 + (c[3] as int - 0x80)
  }

  lemma Digits(v: nat)
    ensures v == v / 0x40 * 0x40 + v % 0x40
    ensures v / 0x40 == v / 0x1000 * 0x40 + v / 0x40 % 0x40
    ensures v / 0x1000 == v / 0x4_0000 * 0x40 + v / 0x1000 % 0x40
  {
  }

  lemma ValueOfEncoded(v: Scalar)
    ensures 1 <= |Encoded(v)| <= 4 && Value(Encoded(v)) == v
  {
    Digits(v);
  }

  lemma EncodedIsChar(v: Scalar)
    ensures IsChar(Encoded(v))
  {
    Digits(v);
  }

  lemma Shift(q: nat, d: nat)
    requires d < 0x40
    ensures (q * 0x40 + d) / 0x40 == q && (q * 0x40 + d) % 0x40 == d
  {
  }

  lemma Shifts(v: nat)
    ensures v / 0x1000 == v / 0x40 / 0x40 && v / 0x4_0000 == v / 0x40 / 0x40 / 0x40
  {
  }

  lemma Undigits(a: nat, b: nat, c: nat, d: nat)
    requires b < 0x40 && c < 0x40 && d < 0x40
    ensures var v := a * 0x4_0000 + b * 0x1000 + c * 0x40 + d;
            v % 0x40 == d && v / 0x40 % 0x40 == c && v / 0x1000 % 0x40 == b && v / 0x4_0000 == a
            && v / 0x1000 == a * 0x40 + b && v / 0x40 == (a * 0x40 + b) * 0x40 + c
  {
    Shift((a * 0x40 + b) * 0x40 + c, d);
    Shift(a * 0x40 + b, c);
    Shift(a, b);
    Shifts(a * 0x4_0000 + b * 0x1000 + c * 0x40 + d);
  }

  predicate IsEncoded(c: Bytes) {
    && 1 <= |c| <= 4
    && 0 <= Value(c) <= 0x10FFFF && !(0xD800 <= Value(c) <= 0xDFFF)
    && Encoded(Value(c)) == c
  }

  lemma ThreeBytes(c: Bytes)
    requires IsChar(c) && |c| == 3
    ensures IsEncoded(c)
  {
    Undigits(0, c[0] - 0xE0, c[1] - 0x80, c[2] - 0x80);
  }

  lemma FourBytes(c: Bytes)
    requires IsChar(c) && |c| == 4
    ensures IsEncoded(c)
  {
    Undigits(c[0] - 0xF0, c[1] - 0x80, c[2] - 0x80, c[3] - 0x80);
  }

  lemma CharIsEncoded(c: Bytes)
    requires IsChar(c)
    ensures IsEncoded(c)
  {
    if |c| == 2 {
      Undigits(0, 0, c[0] - 0xC0, c[1] - 0x80);
    } else if |c| == 3 {
      ThreeBytes(c);
    } else if |c| == 4 {
      FourBytes(c);
    }
  }

  /** The characters of the grammar are exactly the encodings of the scalar values, each of one value. */
  lemma CharsAreEncodings(c: Bytes)
    ensures IsChar(c) <==> exists v: Scalar :: Encoded(v) == c
    ensures forall v: Scalar, u: Scalar :: Encoded(v) == c && Encoded(u) == c ==> v == u
  {
    if IsChar(c) {
      CharIsEncoded(c);
      var v: Scalar := Value(c);
      assert Encoded(v) == c;
    }
    forall v: Scalar, u: Scalar | Encoded(v) == c && Encoded(u) == c ensures v == u {
      ValueOfEncoded(v);
      ValueOfEncoded(u);
    }
    if v: Scalar :| Encoded(v) == c {
      EncodedIsChar(v);
    }
  }

  function EncodedAll(vs: seq<Scalar>): Bytes {
    if vs == [] then [] else Encoded(vs[0]) + EncodedAll(vs[1..])
  }

  lemma {:induction false} EncodedTextIsValid(vs: seq<Scalar>)
    ensures FromUtf8(EncodedAll(vs)).Valid?
  {
    if vs != [] {
      EncodedIsChar(vs[0]);
      EncodedTextIsValid(vs[1..]);
      ValidCons(Encoded(vs[0]), EncodedAll(vs[1..]));
    }
  }

  lemma {:induction false} ValidIsText(s: Bytes) returns (vs: seq<Scalar>)
    requires FromUtf8(s).Valid?
    ensures EncodedAll(vs) == s
    decreases |s|
  {
    if s == [] {
      vs := [];
    } else {
      var c, rest := FrontChar(s);
      ValidCons(c, rest);
      var tail := ValidIsText(rest);
      CharIsEncoded(c);
      vs := [Value(c)] + tail;
      assert vs[1..] == tail;
    }
  }

  /** So the validator accepts exactly the encodings of texts. */
  lemma ValidIsEncodedText(s: Bytes)
    ensures FromUtf8(s).Valid? <==> exists vs: seq<Scalar> :: EncodedAll(vs) == s
  {
    if FromUtf8(s).Valid? {
      var vs := ValidIsText(s);
      assert EncodedAll(vs) == s;
    }
    if vs: seq<Scalar> :| EncodedAll(vs) == s {
      EncodedTextIsValid(vs);
    }
  }

  // ---------------------------------------------------------------------------------------------
  // What decoding keeps
  // ---------------------------------------------------------------------------------------------

  lemma DecodeCons(c: Bytes, s: Bytes)
    requires IsChar(c)
    ensures Decode(c + s) == c + Decode(s)
  {
    ValidCons(c, s);
    assert (c + s)[..|c|] == c && (c + s)[|c|..] == s;
  }

  /** A well-formed beginning is kept whatever follows it. */
  lemma {:induction false} DecodeKeepsValidPrefix(a: Bytes, s: Bytes)
    requires FromUtf8(a).Valid?
    ensures Decode(a + s) == a + Decode(s)
    decreases |a|
  {
    if a == [] {
      assert a + s == s;
    } else {
      var c, rest := FrontChar(a);
      ValidCons(c, rest);
      DecodeKeepsValidPrefix(rest, s);
      DecodeCons(c, rest + s);
      Associative(c, rest, s);
      Associative(c, rest, Decode(s));
    }
  }

  lemma DecodeValid(s: Bytes)
    requires FromUtf8(s).Valid?
    ensures Decode(s) == s
  {
    DecodeKeepsValidPrefix(s, []);
    assert s + [] == s;
  }

  /** Up to the error the input is valid, and at the error no character starts. */
  lemma {:induction false} ErrorMeans(s: Bytes, k: nat, e: Option<nat>)
    requires FromUtf8(s) == Error(k, e)
    ensures FromUtf8(s[..k]).Valid?
    ensures Scan(s[k..]) == if e.Some? then Malformed(e.value) else Incomplete
    decreases |s|
  {
    if Scan(s).Char? {
      var c, rest := FrontChar(s);
      assert rest == s[|c|..];
      ErrorMeans(rest, k - |c|, e);
      ValidCons(c, rest[..k - |c|]);
      assert s[..k] == c + rest[..k - |c|] && s[k..] == rest[k - |c|..];
    } else {
      assert s[..0] == [] && s[0..] == s;
    }
  }

  /** One round of the decode loop: what `from_utf8` accepts is kept, what it reports is skipped. */
  lemma DecodeError(s: Bytes, k: nat, e: Option<nat>)
    requires FromUtf8(s) == Error(k, e)
    ensures Decode(s) == s[..k] + (if e.Some? then Decode(s[k + e.value..]) else [])
  {
    ErrorMeans(s, k, e);
    DecodeKeepsValidPrefix(s[..k], s[k..]);
    assert s[..k] + s[k..] == s;
    if e.Some? {
      assert s[k..][e.value..] == s[k + e.value..];
    }
  }

  /** Every character that occurs in the input, wherever it starts, in order. */
  function Characters(s: Bytes): (r: Bytes)
    ensures |r| <= |s|
  {
    if s == [] then []
    else if StartsWithChar(s, 1) then s[..1] + Characters(s[1..])
    else if StartsWithChar(s, 2) then s[..2] + Characters(s[2..])
    else if StartsWithChar(s, 3) then s[..3] + Characters(s[3..])
    else if StartsWithChar(s, 4) then s[..4] + Characters(s[4..])
    else Characters(s[1..])
  }

  lemma {:induction false} NoCharacterAmongTails(s: Bytes, n: nat)
    requires n <= |s| && forall i :: 0 <= i < n ==> IsTail(s[i])
    ensures Characters(s) == Characters(s[n..])
  {
    if n > 0 {
      ScanIsExact(s);
      assert CharWidth(s[0]) == 0;
      NoCharacterAmongTails(s[1..], n - 1);
      assert s[1..][n - 1..] == s[n..];
    }
  }

  lemma CharactersByFront(s: Bytes)
    requires s != []
    ensures Scan(s).Char? ==> Characters(s) == s[..Scan(s).len] + Characters(s[Scan(s).len..])
    ensures Scan(s).Malformed? ==> Characters(s) == Characters(s[Scan(s).len..])
    ensures Scan(s).Incomplete? ==> Characters(s) == []
  {
    ScanIsExact(s);
    match Scan(s)
    case Char(n) =>
      assert StartsWithChar(s, n) && 1 <= n <= 4;
    case Malformed(n) =>
      NoCharacterAmongTails(s[1..], n - 1);
      assert s[1..][n - 1..] == s[n..];
    case Incomplete =>
      NoCharacterAmongTails(s[1..], |s| - 1);
      assert s[1..][|s| - 1..] == [];
  }

  /** Decoding loses nothing but bytes that belong to no character, however long the malformed
      sequences it skips at once. */
  lemma {:induction false} DecodeKeepsCharacters(s: Bytes)
    ensures Decode(s) == Characters(s)
    decreases |s|
  {
    if s != [] {
      CharactersByFront(s);
      if !Scan(s).Incomplete? {
        DecodeKeepsCharacters(s[Scan(s).len..]);
      }
    }
  }

  lemma {:induction false} DecodeIsWellFormed(s: Bytes)
    ensures FromUtf8(Decode(s)).Valid?
    decreases |s|
  {
    if s != [] {
      match Scan(s)
      case Char(n) =>
        DecodeIsWellFormed(s[n..]);
        ScanIsExact(s);
        ValidCons(s[..n], Decode(s[n..]));
      case Malformed(n) =>
        DecodeIsWellFormed(s[n..]);
      case Incomplete =>
    }
  }

  // ---------------------------------------------------------------------------------------------
  // Subsequences
  // ---------------------------------------------------------------------------------------------

  /** `at` embeds `a` into `b`, in order. */
  ghost predicate Embeds(at: seq<nat>, a: Bytes, b: Bytes) {
    && |at| == |a|
    && (forall i :: 0 <= i < |a| ==> at[i] < |b| && a[i] == b[at[i]])
    && (forall i, j :: 0 <= i < j < |a| ==> at[i] < at[j])
  }

  ghost predicate Subsequence(a: Bytes, b: Bytes) {
    exists at :: Embeds(at, a, b)
  }

  ghost predicate EmbedsFrom(at: seq<nat>, a: Bytes, b: Bytes, p: nat) {
    Embeds(at, a, b) && forall i :: 0 <= i < |at| ==> p <= at[i]
  }

  lemma PrefixEmbeds(a: Bytes, b: Bytes) returns (at: seq<nat>)
    requires a <= b
    ensures Embeds(at, a, b)
  {
    at := seq(|a|, i => i);
  }

  lemma SubsequenceTransitive(a: Bytes, b: Bytes, c: Bytes)
    requires Subsequence(a, b) && Subsequence(b, c)
    ensures Subsequence(a, c)
  {
    var at, bt :| Embeds(at, a, b) && Embeds(bt, b, c);
    assert Embeds(seq(|a|, i requires 0 <= i < |a| => bt[at[i]]), a, c);
  }

  /** `b[p..q]` followed by something that embeds behind `q`. */
  lemma KeepSlice(b: Bytes, p: nat, q: nat, at: seq<nat>, a: Bytes) returns (at': seq<nat>)
    requires p <= q <= |b| && EmbedsFrom(at, a, b, q)
    ensures EmbedsFrom(at', b[p..q] + a, b, p)
  {
    at' := seq(q - p + |a|, i requires 0 <= i < q - p + |a| => if i < q - p then p + i else at[i - (q - p)]);
  }

  lemma {:induction false} DropNulEmbeds(s: Bytes, p: nat) returns (at: seq<nat>)
    requires p <= |s|
    ensures EmbedsFrom(at, DropNul(s[p..]), s, p)
    decreases |s| - p
  {
    if p == |s| {
      at := [];
    } else {
      assert s[p..][1..] == s[p + 1..];
      at := DropNulEmbeds(s, p + 1);
      if s[p] != 0 {
        at := KeepSlice(s, p, p + 1, at, DropNul(s[p + 1..]));
        assert s[p..p + 1] == [s[p]];
      }
    }
  }

  lemma {:induction false} DecodeEmbeds(s: Bytes, p: nat) returns (at: seq<nat>)
    requires p <= |s|
    ensures EmbedsFrom(at, Decode(s[p..]), s, p)
    decreases |s| - p
  {
    if p == |s| || Scan(s[p..]).Incomplete? {
      at := [];
    } else {
      var q := p + Scan(s[p..]).len;
      assert s[p..][q - p..] == s[q..] && s[p..][..q - p] == s[p..q];
      at := DecodeEmbeds(s, q);
      if Scan(s[p..]).Char? {
        at := KeepSlice(s, p, q, at, Decode(s[q..]));
      }
    }
  }

  // ---------------------------------------------------------------------------------------------
  // Character boundaries
  // ---------------------------------------------------------------------------------------------

  predicate IsBoundary(s: Bytes, p: nat) {
    p == |s| || (p < |s| && !IsTail(s[p]))
  }

  /** Inside a character there is no boundary and its prefix is not well-formed. */
  lemma InsideChar(s: Bytes, p: nat)
    requires s != [] && Scan(s).Char? && 0 < p < Scan(s).len
    ensures !IsBoundary(s, p) && FromUtf8(s[..p]) == Error(0, None)
  {
  }

  /** The well-formed prefixes of a well-formed string are the ones that end on a boundary, and a
      boundary is never more than three bytes back. */
  lemma {:induction false} BoundariesOfWellFormed(s: Bytes, p: nat)
    requires FromUtf8(s).Valid? && p <= |s|
    ensures FromUtf8(s[..p]).Valid? <==> IsBoundary(s, p)
    ensures exists q :: p - 3 <= q <= p && 0 <= q && IsBoundary(s, q)
    decreases |s|
  {
    if s == [] || p == 0 {
      assert IsBoundary(s, p);
    } else {
      var c, rest := FrontChar(s);
      if p < |c| {
        InsideChar(s, p);
        assert IsBoundary(s, 0);
      } else {
        var m := p - |c|;
        ValidCons(c, rest);
        BoundariesOfWellFormed(rest, m);
        ValidCons(c, rest[..m]);
        assert s[..p] == c + rest[..m];
        assert forall q :: 0 <= q <= |rest| ==> (IsBoundary(s, |c| + q) <==> IsBoundary(rest, q));
        var q :| m - 3 <= q <= m && 0 <= q && IsBoundary(rest, q);
        assert IsBoundary(s, |c| + q);
      }
    }
  }

  /** A well-formed input over the cap is cut to its longest well-formed prefix within the cap, which
      is at most three bytes short of it. */
  lemma TruncationIsLongest(bytes: Bytes)
    requires WellFormed(bytes) && |bytes| > MAX_OUTPUT_SIZE
    ensures var t := Truncate(bytes);
            && WellFormed(t)
            && MAX_OUTPUT_SIZE - 3 <= |t| <= MAX_OUTPUT_SIZE
            && forall p :: |t| < p <= MAX_OUTPUT_SIZE ==> !WellFormed(bytes[..p])
  {
    var e := CutAt(bytes, MAX_OUTPUT_SIZE);
    ValidIsWellFormed(bytes);
    BoundariesOfWellFormed(bytes, MAX_OUTPUT_SIZE);
    BoundariesOfWellFormed(bytes, 0);
    BoundariesOfWellFormed(bytes, e);
    ValidIsWellFormed(bytes[..e]);
    forall p | e < p <= MAX_OUTPUT_SIZE ensures !WellFormed(bytes[..p]) {
      BoundariesOfWellFormed(bytes, p);
      ValidIsWellFormed(bytes[..p]);
    }
  }

  // ---------------------------------------------------------------------------------------------
  // What cleaning guarantees
  // ---------------------------------------------------------------------------------------------

  /** On every byte string: the output is well-formed UTF-8 without NUL, within the cap, and a
      subsequence of the input; it is made of every character left after truncation and NUL removal. */
  lemma CleanIsSafe(bytes: Bytes)
    ensures var out := Clean(bytes);
            && WellFormed(out) && 0 !in out && |out| <= MAX_OUTPUT_SIZE
            && Subsequence(out, bytes)
            && out == Characters(DropNul(Truncate(bytes)))
  {
    var cleaned := DropNul(Truncate(bytes));
    DecodeKeepsCharacters(cleaned);
    DecodeIsWellFormed(cleaned);
    ValidIsWellFormed(Decode(cleaned));
    var decodeAt := DecodeEmbeds(cleaned, 0);
    var dropAt := DropNulEmbeds(Truncate(bytes), 0);
    assert cleaned[0..] == cleaned && Truncate(bytes)[0..] == Truncate(bytes);
    var cutAt := PrefixEmbeds(Truncate(bytes), bytes);
    SubsequenceTransitive(cleaned, Truncate(bytes), bytes);
    SubsequenceTransitive(Clean(bytes), cleaned, bytes);
  }

  lemma {:induction false} NothingToDrop(s: Bytes)
    requires 0 !in s
    ensures DropNul(s) == s
  {
    if s != [] {
      NothingToDrop(s[1..]);
    }
  }

  lemma CleanLeavesClean(s: Bytes)
    requires WellFormed(s) && 0 !in s && |s| <= MAX_OUTPUT_SIZE
    ensures Clean(s) == s
  {
    NothingToDrop(s);
    ValidIsWellFormed(s);
    DecodeValid(s);
  }

  /** Cleaning leaves a byte string alone exactly when it is well-formed, free of NUL and within the
      cap; so cleaning twice is cleaning once. */
  lemma CleanFixesExactlyTheClean(bytes: Bytes)
    ensures Clean(bytes) == bytes <==> WellFormed(bytes) && 0 !in bytes && |bytes| <= MAX_OUTPUT_SIZE
    ensures Clean(Clean(bytes)) == Clean(bytes)
  {
    CleanIsSafe(bytes);
    CleanLeavesClean(Clean(bytes));
    if WellFormed(bytes) && 0 !in bytes && |bytes| <= MAX_OUTPUT_SIZE {
      CleanLeavesClean(bytes);
    }
  }

  lemma {:induction false} DropNulConcat(a: Bytes, b: Bytes)
    ensures DropNul(a + b) == DropNul(a) + DropNul(b)
  {
    if a == [] {
      assert a + b == b;
    } else {
      assert (a + b)[1..] == a[1..] + b;
      DropNulConcat(a[1..], b);
      Associative(if a[0] == 0 then [] else [a[0]], DropNul(a[1..]), DropNul(b));
    }
  }

  /** The filter removes every NUL and no other byte. */
  lemma {:induction false} DropNulRemovesNuls(s: Bytes)
    ensures multiset(DropNul(s)) == multiset(s)[0 := 0]
  {
    if s != [] {
      DropNulRemovesNuls(s[1..]);
      assert s == [s[0]] + s[1..];
    }
  }

  lemma {:induction false} DropNulKeepsWellFormed(s: Bytes)
    requires FromUtf8(s).Valid?
    ensures FromUtf8(DropNul(s)).Valid?
    decreases |s|
  {
    if s != [] {
      var c, rest := FrontChar(s);
      ValidCons(c, rest);
      DropNulKeepsWellFormed(rest);
      DropNulConcat(c, rest);
      if c == [0] {
        assert DropNul(c) + DropNul(rest) == DropNul(rest);
      } else {
        NothingToDrop(c);
        ValidCons(c, DropNul(rest));
      }
    }
  }

  function WithoutNul(vs: seq<Scalar>): seq<Scalar> {
    if vs == [] then [] else (if vs[0] == 0 then [] else [vs[0]]) + WithoutNul(vs[1..])
  }

  lemma {:induction false} DropNulOfText(vs: seq<Scalar>)
    ensures DropNul(EncodedAll(vs)) == EncodedAll(WithoutNul(vs))
  {
    if vs != [] {
      var v, rest := vs[0], vs[1..];
      DropNulOfText(rest);
      DropNulConcat(Encoded(v), EncodedAll(rest));
      if v == 0 {
        assert Encoded(v) == [0] && Encoded(v)[1..] == [];
        assert DropNul(Encoded(v)) == [];
        assert [] + DropNul(EncodedAll(rest)) == DropNul(EncodedAll(rest));
        assert [] + WithoutNul(rest) == WithoutNul(rest);
      } else {
        NothingToDrop(Encoded(v));
        assert ([v] + WithoutNul(rest))[1..] == WithoutNul(rest);
      }
    }
  }

  /** A well-formed input loses nothing but its NUL bytes and what lies beyond the cap. */
  lemma CleanOfWellFormed(bytes: Bytes)
    requires WellFormed(bytes)
    ensures Clean(bytes) == DropNul(Truncate(bytes))
  {
    if |bytes| > MAX_OUTPUT_SIZE {
      TruncationIsLongest(bytes);
    }
    ValidIsWellFormed(Truncate(bytes));
    DropNulKeepsWellFormed(Truncate(bytes));
    DecodeValid(DropNul(Truncate(bytes)));
  }

  /** Any text within the cap comes through without its NUL characters and otherwise unchanged. */
  lemma CleanOfText(vs: seq<Scalar>)
    requires |EncodedAll(vs)| <= 10 * 1024 * 1024
    ensures Clean(EncodedAll(vs)) == EncodedAll(WithoutNul(vs))
  {
    EncodedTextIsValid(vs);
    ValidIsWellFormed(EncodedAll(vs));
    CleanOfWellFormed(EncodedAll(vs));
    DropNulOfText(vs);
  }

  // ---------------------------------------------------------------------------------------------
  // The procedures
  // ---------------------------------------------------------------------------------------------

  method CutToCap(bytes: Bytes) returns (kept: Bytes)
    ensures kept == Truncate(bytes)
  {
    kept := bytes;
    if |bytes| > MAX_OUTPUT_SIZE {
      var end := MAX_OUTPUT_SIZE;
      while end > 0 && IsTail(bytes[end])
        invariant 0 <= end <= MAX_OUTPUT_SIZE
        invariant CutAt(bytes, end) == CutAt(bytes, MAX_OUTPUT_SIZE)
      {
        end := end - 1;
      }
      kept := bytes[..end];
    }
  }

  method RemoveNuls(bytes: Bytes) returns (cleaned: Bytes)
    ensures cleaned == DropNul(bytes)
  {
    cleaned := [];
    for i := 0 to |bytes|
      invariant cleaned == DropNul(bytes[..i])
    {
      assert bytes[..i + 1] == bytes[..i] + [bytes[i]];
      DropNulConcat(bytes[..i], [bytes[i]]);
      if bytes[i] != 0 {
        cleaned := cleaned + [bytes[i]];
      }
    }
    assert bytes[..|bytes|] == bytes;
  }

  method DecodeLossy(bytes: Bytes) returns (out: Bytes)
    ensures out == Decode(bytes)
  {
    out := [];
    var rest := bytes;
    while true
      invariant out + Decode(rest) == Decode(bytes)
      decreases |rest|
    {
      match FromUtf8(rest)
      case Valid =>
        DecodeValid(rest);
        out := out + rest;
        return;
      case Error(validUpTo, errorLen) =>
        DecodeError(rest, validUpTo, errorLen);
        ghost var before := out;
        out := out + rest[..validUpTo];
        if errorLen.None? {
          return;
        }
        Associative(before, rest[..validUpTo], Decode(rest[validUpTo + errorLen.value..]));
        rest := rest[validUpTo + errorLen.value..];
    }
  }

  method CleanString(bytes: Bytes) returns (out: Bytes)
    ensures out == Clean(bytes)
  {
    var kept := CutToCap(bytes);
    var cleaned := RemoveNuls(kept);
    out := DecodeLossy(cleaned);
  }
}
