/**
 Editing the Windows system PATH.  The registry holds it as UTF-16LE bytes with a terminator; it is
 decoded, split at semicolons, edited, joined and encoded again.
 */
module PathCodec {
  import opened Options

  type Byte = b: int | 0 <= b < 0x100
  type Unit = u: int | 0 <= u < 0x1_0000
  type Scalar = c: int | 0 <= c < 0x11_0000 && !(0xD800 <= c < 0xE000)

  const REPLACEMENT: Scalar := 0xFFFD
  const SEMICOLON: Scalar := 0x3B
  const NUL: Scalar := 0

  type Text = seq<Scalar>

  // ---------------------------------------------------------------------------------------------
  // UTF-16LE, section 2 of RFC 2781
  // ---------------------------------------------------------------------------------------------

  predicate IsHigh(u: Unit) { 0xD800 <= u < 0xDC00 }

  predicate IsLow(u: Unit) { 0xDC00 <= u < 0xE000 }

  function Paired(high: Unit, low: Unit): Scalar
    requires IsHigh(high) && IsLow(low)
  {
    0x1_0000 + (high - 0xD800) * 0x400 + (low - 0xDC00)
  }

  function Units(c: Scalar): (us: seq<Unit>)
    ensures if c < 0x1_0000 then |us| == 1 && !IsHigh(us[0]) && !IsLow(us[0])
            else |us| == 2 && IsHigh(us[0]) && IsLow(us[1]) && Paired(us[0], us[1]) == c
  {
    if c < 0x1_0000 then [c]
    else [0xD800 + (c - 0x1_0000) / 0x400, 0xDC00 + (c - 0x1_0000) % 0x400]
  }

  function Encode(s: Text): seq<Unit> {
    if s == [] then [] else Units(s[0]) + Encode(s[1..])
  }

  /** The character at the front and how many units it takes; an unpaired surrogate is replaced. */
  function Front(us: seq<Unit>): (r: (Scalar, nat))
    requires us != []
    ensures 1 <= r.1 <= |us|
  {
    if !IsHigh(us[0]) && !IsLow(us[0]) then (us[0], 1)
    else if IsHigh(us[0]) && |us| > 1 && IsLow(us[1]) then (Paired(us[0], us[1]), 2)
    else (REPLACEMENT, 1)
  }

  function Decode(us: seq<Unit>): Text {
    if us == [] then [] else [Front(us).0] + Decode(us[Front(us).1..])
  }

  function ToBytes(us: seq<Unit>): seq<Byte> {
    if us == [] then [] else [us[0] % 0x100, us[0] / 0x100] + ToBytes(us[1..])
  }

  /** Whole pairs of bytes; an odd last byte is dropped. */
  function FromBytes(bs: seq<Byte>): seq<Unit> {
    if |bs| < 2 then [] else [bs[0] as int + 0x100 * bs[1] as int] + FromBytes(bs[2..])
  }

  function TrimNuls(s: Text): (r: Text)
    ensures r <= s && (r != [] ==> r[|r| - 1] != NUL)
    ensures forall i :: |r| <= i < |s| ==> s[i] == NUL
  {
    if s != [] && s[|s| - 1] == NUL then TrimNuls(s[..|s| - 1]) else s
  }

  function Read(bytes: seq<Byte>): Text {
    TrimNuls(Decode(FromBytes(bytes)))
  }

  function Written(s: Text): seq<Byte> {
    ToBytes(Encode(s)) + [0, 0]
  }

  lemma FrontOfUnits(c: Scalar, rest: seq<Unit>)
    ensures Front(Units(c) + rest) == (c, |Units(c)|)
    ensures (Units(c) + rest)[|Units(c)|..] == rest
  {
  }

  lemma {:induction false} DecodeEncode(s: Text)
    ensures Decode(Encode(s)) == s
  {
    if s != [] {
      FrontOfUnits(s[0], Encode(s[1..]));
      DecodeEncode(s[1..]);
    }
  }

  lemma {:induction false} EncodeSnoc(s: Text, c: Scalar)
    ensures Encode(s + [c]) == Encode(s) + Units(c)
  {
    if s == [] {
      assert Encode([c]) == Units(c) + Encode([]);
    } else {
      assert (s + [c])[1..] == s[1..] + [c];
      EncodeSnoc(s[1..], c);
    }
  }

  lemma {:induction false} FromToBytes(us: seq<Unit>)
    ensures FromBytes(ToBytes(us) + [0, 0]) == us + [0]
  {
    if us == [] {
      assert [0, 0][2..] == [];
    } else {
      var bs := ToBytes(us) + [0, 0];
      assert bs[2..] == ToBytes(us[1..]) + [0, 0];
      FromToBytes(us[1..]);
    }
  }

  lemma TrimNulsSnoc(s: Text)
    ensures TrimNuls(s + [NUL]) == TrimNuls(s)
  {
    assert (s + [NUL])[..|s|] == s;
  }

  /** Writing and reading back loses trailing NULs and nothing else. */
  lemma ReadWritten(s: Text)
    ensures Read(Written(s)) == TrimNuls(s)
    ensures Read(Written(s)) == s <==> (s == [] || s[|s| - 1] != NUL)
  {
    FromToBytes(Encode(s));
    EncodeSnoc(s, NUL);
    DecodeEncode(s + [NUL]);
    TrimNulsSnoc(s);
  }

  /** A high surrogate is followed by a low one, and a low one follows a high one. */
  predicate PairedAt(us: seq<Unit>, i: int)
    requires 0 <= i < |us|
  {
    && (IsHigh(us[i]) ==> i + 1 < |us| && IsLow(us[i + 1]))
    && (IsLow(us[i]) ==> 0 < i && IsHigh(us[i - 1]))
  }

  ghost predicate WellFormed(us: seq<Unit>) {
    forall i :: 0 <= i < |us| ==> PairedAt(us, i)
  }

  lemma UnitsPaired(high: Unit, low: Unit)
    requires IsHigh(high) && IsLow(low)
    ensures Units(Paired(high, low)) == [high, low]
  {
  }

  lemma FrontExact(us: seq<Unit>)
    requires us != []
    ensures WellFormed(us) ==> us[..Front(us).1] == Units(Front(us).0)
    ensures us[..Front(us).1] != Units(Front(us).0) ==> Front(us) == (REPLACEMENT, 1) && us[0] != REPLACEMENT
  {
    if IsHigh(us[0]) && |us| > 1 && IsLow(us[1]) {
      UnitsPaired(us[0], us[1]);
      assert us[..2] == [us[0], us[1]];
    } else if !IsHigh(us[0]) && !IsLow(us[0]) {
      assert us[..1] == [us[0]] == Units(us[0]);
    } else {
      assert !PairedAt(us, 0);
    }
  }

  lemma PairedLater(c: Scalar, rest: seq<Unit>, i: nat)
    requires i < |rest|
    ensures PairedAt(rest, i) <==> PairedAt(Units(c) + rest, i + |Units(c)|)
  {
    var us, n := Units(c) + rest, |Units(c)|;
    assert us[i + n] == rest[i];
    assert i + 1 < |rest| ==> us[i + 1 + n] == rest[i + 1];
    assert 0 < i ==> us[i - 1 + n] == rest[i - 1];
  }

  lemma WellFormedRest(c: Scalar, rest: seq<Unit>)
    ensures WellFormed(Units(c) + rest) <==> WellFormed(rest)
  {
    var us, n := Units(c) + rest, |Units(c)|;
    forall i: nat | i < |rest| ensures PairedAt(rest, i) <==> PairedAt(us, i + n) {
      PairedLater(c, rest, i);
    }
    if WellFormed(rest) {
      forall i | 0 <= i < |us| ensures PairedAt(us, i) {
        if i >= n {
          assert PairedAt(rest, i - n);
          PairedLater(c, rest, i - n);
        }
      }
    }
  }

  lemma EncodeFront(c: Scalar, s: Text)
    ensures Encode([c] + s) == Units(c) + Encode(s)
  {
    assert ([c] + s)[1..] == s;
  }

  /** Reading and writing back keeps the units exactly if every surrogate among them is paired. */
  lemma {:induction false} EncodeDecode(us: seq<Unit>)
    ensures Encode(Decode(us)) == us <==> WellFormed(us)
    decreases |us|
  {
    if us != [] {
      var c, rest := Front(us).0, us[Front(us).1..];
      EncodeFront(c, Decode(rest));
      FrontExact(us);
      if us[..Front(us).1] == Units(c) {
        assert us == Units(c) + rest;
        EncodeDecode(rest);
        WellFormedRest(c, rest);
      } else {
        assert Encode(Decode(us))[0] == REPLACEMENT;
      }
    }
  }

  /** The layout of section 2.1 of RFC 2781: a character beyond the first plane is split into ten high and ten
      low bits. */
  lemma UnitsLayout(c: Scalar)
    ensures c < 0x1_0000 ==> Units(c) == [c]
    ensures c >= 0x1_0000 ==>
              && |Units(c)| == 2
              && 0xD800 <= Units(c)[0] < 0xDC00 && 0xDC00 <= Units(c)[1] < 0xE000
              && c - 0x1_0000 == (Units(c)[0] as int - 0xD800) * 0x400 + (Units(c)[1] as int - 0xDC00)
  {
  }

  /** Each unit is two bytes, the low one first. */
  lemma {:induction false} BytesLayout(us: seq<Unit>, k: nat)
    requires k < |us|
    ensures |ToBytes(us)| == 2 * |us|
    ensures us[k] == ToBytes(us)[2 * k] as int + 0x100 * ToBytes(us)[2 * k + 1] as int
    decreases |us|
  {
    if |us| > 1 {
      BytesLayout(us[1..], if k > 0 then k - 1 else 0);
    }
    if k > 0 {
      assert ToBytes(us)[2 * k] == ToBytes(us[1..])[2 * (k - 1)];
      assert ToBytes(us)[2 * k + 1] == ToBytes(us[1..])[2 * (k - 1) + 1];
    }
  }

  /** What is written ends in a terminator of two zero bytes, after two bytes for each unit. */
  lemma WrittenIsTerminated(s: Text)
    ensures var bytes := Written(s);
            && |bytes| == 2 * |Encode(s)| + 2
            && bytes[|bytes| - 2] == 0 && bytes[|bytes| - 1] == 0 && bytes[..|bytes| - 2] == ToBytes(Encode(s))
  {
    if Encode(s) != [] {
      BytesLayout(Encode(s), 0);
    }
  }

  /** An odd last byte is ignored. */
  lemma {:induction false} OddByteIgnored(bs: seq<Byte>, b: Byte)
    requires |bs| % 2 == 0
    ensures FromBytes(bs + [b]) == FromBytes(bs)
    decreases |bs|
  {
    if bs != [] {
      assert (bs + [b])[2..] == bs[2..] + [b];
      OddByteIgnored(bs[2..], b);
    }
  }

  /** A surrogate that is not one of a pair is read as U+FFFD, and the unit after it on its own. */
  lemma UnpairedIsReplaced(us: seq<Unit>)
    requires us != [] && 0xD800 <= us[0] < 0xE000
    requires us[0] < 0xDC00 && |us| > 1 ==> !(0xDC00 <= us[1] < 0xE000)
    ensures Decode(us) == [0xFFFD] + Decode(us[1..])
  {
  }

  // ---------------------------------------------------------------------------------------------
  // Editing the list
  // ---------------------------------------------------------------------------------------------

  function Split(s: Text): (r: seq<Text>)
    ensures r != []
  {
    if s == [] then [[]]
    else
      var r := Split(s[1..]);
      if s[0] == SEMICOLON then [[]] + r else [[s[0]] + r[0]] + r[1..]
  }

  function Join(entries: seq<Text>): Text {
    if entries == [] then []
    else if |entries| == 1 then entries[0]
    else entries[0] + [SEMICOLON] + Join(entries[1..])
  }

  /** The characters with the White_Space property. */
  predicate IsSpace(c: Scalar) {
    || 9 <= c <= 13 || c == 0x20 || c == 0x85 || c == 0xA0 || c == 0x1680 || 0x2000 <= c <= 0x200A
    || c == 0x2028 || c == 0x2029 || c == 0x202F || c == 0x205F || c == 0x3000
  }

  function TrimStart(s: Text): Text {
    if s != [] && IsSpace(s[0]) then TrimStart(s[1..]) else s
  }

  function TrimEnd(s: Text): (r: Text)
    ensures r <= s
  {
    if s != [] && IsSpace(s[|s| - 1]) then TrimEnd(s[..|s| - 1]) else s
  }

  function Trim(s: Text): Text {
    TrimEnd(TrimStart(s))
  }

  function Lower(c: Scalar): Scalar {
    if 0x41 <= c <= 0x5A then c + 0x20 else c
  }

  predicate EqIgnoreAsciiCase(a: Text, b: Text) {
    |a| == |b| && forall i :: 0 <= i < |a| ==> Lower(a[i]) == Lower(b[i])
  }

  predicate Matches(entry: Text, dir: Text) {
    EqIgnoreAsciiCase(Trim(entry), Trim(dir))
  }

  predicate Contains(path: Text, dir: Text) {
    exists entry | entry in Split(path) :: Matches(entry, dir)
  }

  predicate EndsInSemicolon(path: Text) {
    path != [] && path[|path| - 1] == SEMICOLON
  }

  function Append(path: Text, dir: Text): Text {
    if EndsInSemicolon(path) then path + dir else path + [SEMICOLON] + dir
  }

  function Added(path: Text, dir: Text): Text {
    if Contains(path, dir) then path else Append(path, dir)
  }

  function Without(entries: seq<Text>, dir: Text): seq<Text> {
    if entries == [] then []
    else (if Matches(entries[0], dir) then [] else [entries[0]]) + Without(entries[1..], dir)
  }

  function RemovedFrom(path: Text, dir: Text): Text {
    Join(Without(Split(path), dir))
  }

  // ---------------------------------------------------------------------------------------------
  // The registry value
  // ---------------------------------------------------------------------------------------------

  /** The bytes after adding a directory. */
  function AddedBytes(bytes: seq<Byte>, dir: Text): seq<Byte> {
    if Contains(Read(bytes), dir) then bytes else Written(Append(Read(bytes), dir))
  }

  /** The bytes after removing it. */
  function RemovedBytes(bytes: seq<Byte>, dir: Text): seq<Byte> {
    Written(RemovedFrom(Read(bytes), dir))
  }

  datatype Value = Value(kind: int, bytes: seq<Byte>)

  /** The Path value, if there is one; a write may fail. */
  class Registry {
    var path: Option<Value>

    method AddToPath(dir: Text, writable: bool) returns (ok: bool)
      modifies this
      ensures ok == (old(path).Some? && (writable || Contains(Read(old(path).value.bytes), dir)))
      ensures path == if ok then Some(Value(old(path).value.kind, AddedBytes(old(path).value.bytes, dir))) else old(path)
    {
      if path == None {
        return false;
      }
      var current := Read(path.value.bytes);
      if Contains(current, dir) {
        return true;
      }
      var newPath :=
        if current != [] && current[|current| - 1] == SEMICOLON then current + dir else current + [SEMICOLON] + dir;
      if writable {
        path := Some(path.value.(bytes := Written(newPath)));
      }
      return writable;
    }

    method RemoveFromPath(dir: Text, writable: bool) returns (ok: bool)
      modifies this
      ensures ok == (old(path).Some? && writable)
      ensures path == if !ok then old(path)
                      else Some(Value(old(path).value.kind, RemovedBytes(old(path).value.bytes, dir)))
    {
      if path == None || !writable {
        return false;
      }
      var entries := Split(Read(path.value.bytes));
      path := Some(path.value.(bytes := Written(Join(Without(entries, dir)))));
      return true;
    }
  }

  // ---------------------------------------------------------------------------------------------
  // Splitting and joining are inverse
  // ---------------------------------------------------------------------------------------------

  lemma JoinCons(entry: Text, entries: seq<Text>)
    requires entries != []
    ensures Join([entry] + entries) == entry + [SEMICOLON] + Join(entries)
  {
    assert ([entry] + entries)[1..] == entries;
  }

  lemma JoinFront(c: Scalar, entry: Text, entries: seq<Text>)
    ensures Join([[c] + entry] + entries) == [c] + Join([entry] + entries)
  {
    if entries != [] {
      JoinCons([c] + entry, entries);
      JoinCons(entry, entries);
      assert [c] + entry + [SEMICOLON] + Join(entries) == [c] + (entry + [SEMICOLON] + Join(entries));
    }
  }

  lemma {:induction false} JoinSplit(s: Text)
    ensures Join(Split(s)) == s
  {
    if s != [] {
      var r := Split(s[1..]);
      JoinSplit(s[1..]);
      if s[0] == SEMICOLON {
        JoinCons([], r);
      } else {
        assert [r[0]] + r[1..] == r;
        JoinFront(s[0], r[0], r[1..]);
      }
    }
  }

  /** Splitting what follows a semicolon. */
  lemma {:induction false} SplitAppend(s: Text, rest: Text)
    ensures Split(s + [SEMICOLON] + rest) == Split(s) + Split(rest)
  {
    var whole := s + [SEMICOLON] + rest;
    if s == [] {
      assert whole[1..] == rest;
    } else {
      assert whole[1..] == s[1..] + [SEMICOLON] + rest;
      SplitAppend(s[1..], rest);
    }
  }

  lemma {:induction false} SplitOne(s: Text)
    requires SEMICOLON !in s
    ensures Split(s) == [s]
  {
    if s != [] {
      SplitOne(s[1..]);
      assert [s[0]] + s[1..] == s;
    }
  }

  lemma {:induction false} SplitJoin(entries: seq<Text>)
    requires entries != [] && forall e | e in entries :: SEMICOLON !in e
    ensures Split(Join(entries)) == entries
  {
    SplitOne(entries[0]);
    if |entries| > 1 {
      SplitJoin(entries[1..]);
      SplitAppend(entries[0], Join(entries[1..]));
    }
  }

  lemma {:induction false} SplitHasNoSemicolon(s: Text)
    ensures forall e | e in Split(s) :: SEMICOLON !in e
  {
    if s != [] {
      SplitHasNoSemicolon(s[1..]);
    }
  }

  // ---------------------------------------------------------------------------------------------
  // Adding
  // ---------------------------------------------------------------------------------------------

  /** The path without one trailing semicolon. */
  function Stem(path: Text): Text {
    if EndsInSemicolon(path) then path[..|path| - 1] else path
  }

  lemma AppendIsAfterStem(path: Text, dir: Text)
    ensures Append(path, dir) == Stem(path) + [SEMICOLON] + dir
  {
    if EndsInSemicolon(path) {
      assert path == Stem(path) + [SEMICOLON];
    }
  }

  /** A trailing semicolon only adds an empty entry. */
  lemma SplitStem(path: Text)
    ensures Split(path) == Split(Stem(path)) + if EndsInSemicolon(path) then [[]] else []
  {
    if EndsInSemicolon(path) {
      SplitAppend(Stem(path), []);
      assert Stem(path) + [SEMICOLON] + [] == path;
    } else {
      assert Split(path) + [] == Split(path);
    }
  }

  /** Appending keeps the other entries, in order, and puts the directory last. */
  lemma AppendedLast(path: Text, dir: Text)
    requires SEMICOLON !in dir
    ensures Split(Append(path, dir)) == Split(Stem(path)) + [dir]
  {
    AppendIsAfterStem(path, dir);
    SplitAppend(Stem(path), dir);
    SplitOne(dir);
  }

  lemma {:induction false} WithoutAbsent(entries: seq<Text>, dir: Text)
    requires forall e | e in entries :: !Matches(e, dir)
    ensures Without(entries, dir) == entries
  {
    if entries != [] {
      WithoutAbsent(entries[1..], dir);
    }
  }

  lemma {:induction false} WithoutAppend(a: seq<Text>, b: seq<Text>, dir: Text)
    ensures Without(a + b, dir) == Without(a, dir) + Without(b, dir)
  {
    if a == [] {
      assert a + b == b;
    } else {
      assert (a + b)[1..] == a[1..] + b;
      WithoutAppend(a[1..], b, dir);
    }
  }

  /** On texts, removing a directory that was absent and has just been added leaves the stem. */
  lemma RemoveUndoesAppend(path: Text, dir: Text)
    requires SEMICOLON !in dir && !Contains(path, dir)
    ensures RemovedFrom(Added(path, dir), dir) == Stem(path)
  {
    var entries := Split(Stem(path));
    AppendedLast(path, dir);
    SplitStem(path);
    JoinSplit(Stem(path));
    assert forall e | e in entries :: e in Split(path);
    WithoutAbsent(entries, dir);
    WithoutAppend(entries, [dir], dir);
    assert Matches(dir, dir);
    assert Without([dir], dir) == [];
    assert entries + [] == entries;
  }

  lemma {:induction false} WithoutKeeps(entries: seq<Text>, dir: Text)
    ensures forall e :: e in Without(entries, dir) <==> e in entries && !Matches(e, dir)
  {
    if entries != [] {
      WithoutKeeps(entries[1..], dir);
      assert forall e :: e in entries <==> e == entries[0] || e in entries[1..];
    }
  }

  // ---------------------------------------------------------------------------------------------
  // What the search takes for the same directory
  // ---------------------------------------------------------------------------------------------

  /** The 25 code points with the White_Space property. */
  const WHITE_SPACE: set<int> := {
    0x9, 0xA, 0xB, 0xC, 0xD, 0x20, 0x85, 0xA0, 0x1680, 0x2000, 0x2001, 0x2002, 0x2003, 0x2004, 0x2005, 0x2006, 0x2007,
    0x2008, 0x2009, 0x200A, 0x2028, 0x2029, 0x202F, 0x205F, 0x3000}

  lemma SpacesAreWhite(c: Scalar)
    ensures IsSpace(c) <==> c in WHITE_SPACE
  {
  }

  predicate Blank(s: Text) {
    forall c | c in s :: c in WHITE_SPACE
  }

  /** The same letter of the ASCII alphabet, capital or small, or the same character. */
  predicate SameButCase(a: Scalar, b: Scalar) {
    || a == b
    || ('A' as int <= a <= 'Z' as int && b == a + ('a' as int - 'A' as int))
    || ('A' as int <= b <= 'Z' as int && a == b + ('a' as int - 'A' as int))
  }

  lemma LowerIgnoresCase(a: Scalar, b: Scalar)
    ensures Lower(a) == Lower(b) <==> SameButCase(a, b)
  {
  }

  /** `s` is `core` with blanks around it, and `core` neither begins nor ends with one. */
  predicate Surrounds(before: Text, core: Text, after: Text, s: Text) {
    && s == before + core + after && Blank(before) && Blank(after)
    && (core != [] ==> core[0] !in WHITE_SPACE && core[|core| - 1] !in WHITE_SPACE)
  }

  lemma {:induction false} TrimStartParts(s: Text) returns (before: Text)
    ensures s == before + TrimStart(s) && Blank(before)
    ensures TrimStart(s) != [] ==> TrimStart(s)[0] !in WHITE_SPACE
  {
    before := [];
    if s != [] {
      SpacesAreWhite(s[0]);
      if IsSpace(s[0]) {
        var rest := TrimStartParts(s[1..]);
        before := [s[0]] + rest;
        assert s == [s[0]] + s[1..];
      }
    }
  }

  lemma {:induction false} TrimEndParts(s: Text) returns (after: Text)
    ensures s == TrimEnd(s) + after && Blank(after)
    ensures TrimEnd(s) != [] ==> TrimEnd(s)[|TrimEnd(s)| - 1] !in WHITE_SPACE
  {
    after := [];
    if s != [] {
      SpacesAreWhite(s[|s| - 1]);
      if IsSpace(s[|s| - 1]) {
        var rest := TrimEndParts(s[..|s| - 1]);
        after := rest + [s[|s| - 1]];
        assert s == s[..|s| - 1] + [s[|s| - 1]];
      }
    }
  }

  /** Trimming leaves the part between the blanks. */
  lemma TrimLeavesCore(s: Text) returns (before: Text, after: Text)
    ensures Surrounds(before, Trim(s), after, s)
  {
    before := TrimStartParts(s);
    after := TrimEndParts(TrimStart(s));
    assert TrimStart(s) == Trim(s) + after;
    assert s == before + Trim(s) + after;
    if Trim(s) != [] {
      assert Trim(s)[0] == TrimStart(s)[0];
    }
  }

  lemma {:induction false} TrimStartOf(before: Text, rest: Text)
    requires Blank(before) && (rest != [] ==> rest[0] !in WHITE_SPACE)
    ensures TrimStart(before + rest) == rest
  {
    if before == [] {
      assert before + rest == rest;
      if rest != [] {
        SpacesAreWhite(rest[0]);
      }
    } else {
      SpacesAreWhite(before[0]);
      assert before[0] in before;
      assert (before + rest)[1..] == before[1..] + rest;
      TrimStartOf(before[1..], rest);
    }
  }

  lemma {:induction false} TrimEndOf(rest: Text, after: Text)
    requires Blank(after) && (rest != [] ==> rest[|rest| - 1] !in WHITE_SPACE)
    ensures TrimEnd(rest + after) == rest
    decreases |after|
  {
    if after == [] {
      assert rest + after == rest;
      if rest != [] {
        SpacesAreWhite(rest[|rest| - 1]);
      }
    } else {
      var n := |after| - 1;
      SpacesAreWhite(after[n]);
      assert after[n] in after;
      assert (rest + after)[..|rest + after| - 1] == rest + after[..n];
      TrimEndOf(rest, after[..n]);
    }
  }

  lemma {:induction false} TrimStartAllBlank(s: Text)
    requires Blank(s)
    ensures TrimStart(s) == []
  {
    assert s + [] == s;
    TrimStartOf(s, []);
  }

  lemma TrimIsCore(before: Text, core: Text, after: Text, s: Text)
    requires Surrounds(before, core, after, s)
    ensures Trim(s) == core
  {
    if core == [] {
      assert s == before + after;
      assert forall c | c in s :: c in before || c in after;
      TrimStartAllBlank(s);
    } else {
      assert s == before + (core + after);
      TrimStartOf(before, core + after);
      TrimEndOf(core, after);
    }
  }

  /** The search finds an entry exactly if it is the directory up to surrounding blanks and the case of ASCII
      letters. */
  lemma MatchesUpToBlanksAndCase(entry: Text, dir: Text)
    ensures Matches(entry, dir) <==>
            exists b1, core1, a1, b2, core2, a2 ::
              && Surrounds(b1, core1, a1, entry) && Surrounds(b2, core2, a2, dir)
              && |core1| == |core2| && forall i :: 0 <= i < |core1| ==> SameButCase(core1[i], core2[i])
  {
    forall a: Scalar, b: Scalar ensures Lower(a) == Lower(b) <==> SameButCase(a, b) {
      LowerIgnoresCase(a, b);
    }
    if Matches(entry, dir) {
      var b1, a1 := TrimLeavesCore(entry);
      var b2, a2 := TrimLeavesCore(dir);
      assert Surrounds(b1, Trim(entry), a1, entry) && Surrounds(b2, Trim(dir), a2, dir);
    }
    if b1, core1, a1, b2, core2, a2 :|
         && Surrounds(b1, core1, a1, entry) && Surrounds(b2, core2, a2, dir)
         && |core1| == |core2| && forall i :: 0 <= i < |core1| ==> SameButCase(core1[i], core2[i])
    {
      TrimIsCore(b1, core1, a1, entry);
      TrimIsCore(b2, core2, a2, dir);
    }
  }

  // ---------------------------------------------------------------------------------------------
  // Adding again
  // ---------------------------------------------------------------------------------------------

  lemma {:induction false} TrimNulsAfter(s: Text, nuls: Text)
    requires forall c | c in nuls :: c == NUL
    ensures TrimNuls(s + nuls) == TrimNuls(s)
    decreases |nuls|
  {
    if nuls == [] {
      assert s + nuls == s;
    } else {
      var init := nuls[..|nuls| - 1];
      assert nuls[|nuls| - 1] in nuls && forall c | c in init :: c in nuls;
      assert nuls == init + [NUL];
      assert s + nuls == (s + init) + [NUL];
      TrimNulsSnoc(s + init);
      TrimNulsAfter(s, init);
    }
  }

  /** What a directory that was appended reads back as. */
  lemma AppendReads(path: Text, dir: Text)
    requires path == [] || path[|path| - 1] != NUL
    ensures TrimNuls(Append(path, dir)) == Append(path, TrimNuls(dir))
  {
    var kept := TrimNuls(dir);
    var nuls := dir[|kept|..];
    var s := Stem(path) + [SEMICOLON] + kept;
    AppendIsAfterStem(path, dir);
    AppendIsAfterStem(path, kept);
    assert Append(path, dir) == s + nuls;
    TrimNulsAfter(s, nuls);
    assert s[|s| - 1] != NUL;
  }

  lemma {:induction false} TrimStartKeeps(s: Text)
    ensures SEMICOLON in s <==> SEMICOLON in TrimStart(s)
  {
    if s != [] && IsSpace(s[0]) {
      TrimStartKeeps(s[1..]);
      assert s == [s[0]] + s[1..];
    }
  }

  lemma {:induction false} TrimEndKeeps(s: Text)
    ensures SEMICOLON in s <==> SEMICOLON in TrimEnd(s)
  {
    if s != [] && IsSpace(s[|s| - 1]) {
      TrimEndKeeps(s[..|s| - 1]);
      assert s == s[..|s| - 1] + [s[|s| - 1]];
    }
  }

  lemma {:induction false} SemicolonSurvivesTrim(s: Text)
    ensures SEMICOLON in s ==> SEMICOLON in Trim(s)
  {
    TrimStartKeeps(s);
    TrimEndKeeps(TrimStart(s));
  }

  lemma EqualTexts(a: Text, b: Text)
    requires EqIgnoreAsciiCase(a, b) && SEMICOLON in b
    ensures SEMICOLON in a
  {
    var i :| 0 <= i < |b| && b[i] == SEMICOLON;
    assert Lower(a[i]) == Lower(b[i]);
  }

  /** A directory with a semicolon is never found. */
  lemma SemicolonNeverContained(path: Text, dir: Text)
    requires SEMICOLON in dir
    ensures !Contains(path, dir)
  {
    SplitHasNoSemicolon(path);
    SemicolonSurvivesTrim(dir);
    forall e | e in Split(path) ensures !Matches(e, dir) {
      TrimStartKeeps(e);
      TrimEndKeeps(TrimStart(e));
      if Matches(e, dir) {
        EqualTexts(Trim(e), Trim(dir));
      }
    }
  }

  /** Different texts are written differently. */
  lemma WrittenDiffers(s: Text, t: Text)
    requires Written(s) == Written(t)
    ensures s == t
  {
    FromToBytes(Encode(s));
    FromToBytes(Encode(t));
    EncodeSnoc(s, NUL);
    EncodeSnoc(t, NUL);
    DecodeEncode(s + [NUL]);
    DecodeEncode(t + [NUL]);
    assert (s + [NUL])[..|s|] == s && (t + [NUL])[..|t|] == t;
  }

  lemma {:induction false} TrimStartAppend(s: Text, tail: Text)
    requires tail != [] && !IsSpace(tail[0])
    ensures TrimStart(s + tail) == TrimStart(s) + tail
  {
    if s == [] {
      assert s + tail == tail;
    } else if IsSpace(s[0]) {
      assert (s + tail)[1..] == s[1..] + tail;
      TrimStartAppend(s[1..], tail);
    }
  }

  /** A directory with trailing NULs does not match what it reads back as. */
  lemma NulsDoNotMatch(dir: Text)
    requires TrimNuls(dir) != dir
    ensures !Matches(TrimNuls(dir), dir)
  {
    var kept := TrimNuls(dir);
    var nuls := dir[|kept|..];
    assert dir == kept + nuls;
    TrimStartAppend(kept, nuls);
    assert Trim(dir) == TrimStart(kept) + nuls;
  }

  lemma NotFoundAgain(path: Text, dir: Text)
    requires !Contains(path, dir) && (SEMICOLON in dir || TrimNuls(dir) != dir)
    ensures !Contains(Append(path, TrimNuls(dir)), dir)
  {
    var kept := TrimNuls(dir);
    if SEMICOLON in dir {
      SemicolonNeverContained(Append(path, kept), dir);
    } else {
      assert forall c | c in kept :: c in dir;
      AppendedLast(path, kept);
      SplitStem(path);
      NulsDoNotMatch(dir);
      forall e | e in Split(Append(path, kept)) ensures !Matches(e, dir) {
        assert e in Split(Stem(path)) || e == kept;
        assert e in Split(Stem(path)) ==> e in Split(path);
      }
    }
  }

  /** What is appended is found again if it has no semicolon and no trailing NUL. */
  lemma FoundAgain(path: Text, dir: Text)
    requires path == [] || path[|path| - 1] != NUL
    requires SEMICOLON !in dir && TrimNuls(dir) == dir
    ensures Contains(TrimNuls(Append(path, dir)), dir)
  {
    AppendReads(path, dir);
    AppendedLast(path, dir);
    assert Matches(dir, dir);
    assert dir in Split(Append(path, dir));
  }

  /** Adding a directory twice is adding it once, on the registry's bytes, exactly if the directory was
      there already, or has neither a semicolon nor a trailing NUL, or is nothing but NULs. */
  lemma AddTwiceIff(bytes: seq<Byte>, dir: Text)
    ensures AddedBytes(AddedBytes(bytes, dir), dir) == AddedBytes(bytes, dir)
            <==> || Contains(Read(bytes), dir)
                 || (SEMICOLON !in dir && TrimNuls(dir) == dir)
                 || TrimNuls(dir) == []
  {
    var path, kept := Read(bytes), TrimNuls(dir);
    if !Contains(path, dir) {
      var once := Append(path, dir);
      ReadWritten(once);
      AppendReads(path, dir);
      var again := Append(path, kept);
      assert Read(AddedBytes(bytes, dir)) == again;
      if SEMICOLON !in dir && kept == dir {
        FoundAgain(path, dir);
      } else {
        AppendIsAfterStem(path, dir);
        AppendIsAfterStem(path, kept);
        AppendIsAfterStem(again, dir);
        if kept == [] {
          assert again == Stem(path) + [SEMICOLON];
          assert Stem(again) == Stem(path);
        } else {
          NotFoundAgain(path, dir);
          assert |Append(again, dir)| > |once|;
          if Written(Append(again, dir)) == Written(once) {
            WrittenDiffers(Append(again, dir), once);
          }
        }
      }
    }
  }

  // ---------------------------------------------------------------------------------------------
  // Removing
  // ---------------------------------------------------------------------------------------------

  lemma RemovedAbsent(path: Text, dir: Text)
    requires !Contains(path, dir)
    ensures RemovedFrom(path, dir) == path
  {
    WithoutAbsent(Split(path), dir);
    JoinSplit(path);
  }

  lemma TrimNulsFixed(s: Text)
    requires s == [] || s[|s| - 1] != NUL
    ensures TrimNuls(s) == s
  {
  }

  lemma AppendThenRemove(path: Text, dir: Text)
    requires !Contains(path, dir) && (path == [] || path[|path| - 1] != NUL)
    ensures TrimNuls(RemovedFrom(TrimNuls(Append(path, dir)), dir))
            == if SEMICOLON !in dir && TrimNuls(dir) == dir then TrimNuls(Stem(path)) else Append(path, TrimNuls(dir))
  {
    var kept := TrimNuls(dir);
    AppendReads(path, dir);
    if SEMICOLON !in dir && kept == dir {
      RemoveUndoesAppend(path, dir);
    } else {
      NotFoundAgain(path, dir);
      RemovedAbsent(Append(path, kept), dir);
      AppendIsAfterStem(path, kept);
      TrimNulsFixed(Append(path, kept));
    }
  }

  lemma AddThenRemove(bytes: seq<Byte>, dir: Text)
    requires !Contains(Read(bytes), dir)
    ensures Read(RemovedBytes(AddedBytes(bytes, dir), dir))
            == if SEMICOLON !in dir && TrimNuls(dir) == dir then TrimNuls(Stem(Read(bytes)))
               else Append(Read(bytes), TrimNuls(dir))
  {
    var once := Append(Read(bytes), dir);
    AppendThenRemove(Read(bytes), dir);
    ReadWritten(once);
    ReadWritten(RemovedFrom(TrimNuls(once), dir));
  }

  /** On the registry's bytes: adding an absent directory and removing it restores the PATH, but for one
      trailing semicolon and NULs before that, exactly if the directory has neither a semicolon nor a trailing
      NUL.  Otherwise it stays. */
  lemma RemoveUndoesAddIff(bytes: seq<Byte>, dir: Text)
    requires !Contains(Read(bytes), dir)
    ensures var path, after := Read(bytes), Read(RemovedBytes(AddedBytes(bytes, dir), dir));
            && (after == TrimNuls(Stem(path)) <==> SEMICOLON !in dir && TrimNuls(dir) == dir)
            && (after == TrimNuls(Stem(path)) || after == Append(path, TrimNuls(dir)))
  {
    AddThenRemove(bytes, dir);
    AppendIsAfterStem(Read(bytes), TrimNuls(dir));
    assert |TrimNuls(Stem(Read(bytes)))| < |Append(Read(bytes), TrimNuls(dir))|;
  }

  /** A directory with a trailing NUL, added to an empty PATH, survives its removal. */
  lemma TrailingNulSurvivesRemoval()
    ensures var dir: Text := [0x41, NUL];
            && !Contains(Read([0, 0]), dir)
            && Read(RemovedBytes(AddedBytes([0, 0], dir), dir)) == [SEMICOLON, 0x41]
  {
    var none: Text := [];
    var dir: Text := [0x41, NUL];
    ReadWritten(none);
    assert Written(none) == [0, 0];
    TrimNulsSnoc([0x41]);
    assert dir == [0x41] + [NUL];
    TrimNulsFixed([0x41]);
    TrimNulsFixed(none);
    assert Split(none) == [none];
    assert Trim(none) == [];
    TrimStartAppend([], dir);
    assert none + dir == dir;
    assert Trim(dir) == dir;
    RemoveUndoesAddIff([0, 0], dir);
    assert Append(none, [0x41]) == [SEMICOLON, 0x41];
  }

  lemma TrimNulsLast(front: Text, last: Text)
    requires front != [] && front[|front| - 1] != NUL
    ensures TrimNuls(front + last) == front + TrimNuls(last)
  {
    var kept := TrimNuls(last);
    var nuls := last[|kept|..];
    assert front + last == (front + kept) + nuls;
    TrimNulsAfter(front + kept, nuls);
    TrimNulsFixed(front + kept);
  }

  lemma {:induction false} JoinLast(entries: seq<Text>, last: Text)
    requires entries != []
    ensures Join(entries + [last]) == Join(entries) + [SEMICOLON] + last
  {
    if |entries| == 1 {
      JoinCons(entries[0], [last]);
      assert entries + [last] == [entries[0]] + [last];
    } else {
      JoinLast(entries[1..], last);
      JoinCons(entries[0], entries[1..]);
      JoinCons(entries[0], entries[1..] + [last]);
      assert entries + [last] == [entries[0]] + (entries[1..] + [last]);
      assert entries == [entries[0]] + entries[1..];
      assert entries[0] + [SEMICOLON] + (Join(entries[1..]) + [SEMICOLON] + last)
          == entries[0] + [SEMICOLON] + Join(entries[1..]) + [SEMICOLON] + last;
    }
  }

  /** Reading back a written list shortens its last entry by trailing NULs. */
  lemma TrimNulsJoin(entries: seq<Text>, last: Text)
    ensures TrimNuls(Join(entries + [last])) == Join(entries + [TrimNuls(last)])
  {
    if entries == [] {
      assert entries + [last] == [last];
    } else {
      JoinLast(entries, last);
      JoinLast(entries, TrimNuls(last));
      TrimNulsLast(Join(entries) + [SEMICOLON], last);
    }
  }

  /** The entries read back after a removal: the others in order, the last one without trailing NULs; or a
      single empty one if there are no others. */
  function EntriesLeft(path: Text, dir: Text): seq<Text> {
    var others := Without(Split(path), dir);
    if others == [] then [[]] else others[..|others| - 1] + [TrimNuls(others[|others| - 1])]
  }

  lemma LeftHasNoSemicolons(path: Text, dir: Text)
    ensures forall e | e in EntriesLeft(path, dir) :: SEMICOLON !in e
    ensures forall e | e in EntriesLeft(path, dir)[..|EntriesLeft(path, dir)| - 1] :: !Matches(e, dir)
  {
    var others := Without(Split(path), dir);
    SplitHasNoSemicolon(path);
    WithoutKeeps(Split(path), dir);
    if others != [] {
      var init, last := others[..|others| - 1], others[|others| - 1];
      assert forall e | e in init :: e in others;
      assert last in others && forall c | c in TrimNuls(last) :: c in last;
      assert EntriesLeft(path, dir)[..|others| - 1] == init;
    }
  }

  lemma RemovedTrims(path: Text, dir: Text)
    ensures TrimNuls(RemovedFrom(path, dir)) == Join(EntriesLeft(path, dir))
  {
    var others := Without(Split(path), dir);
    if others == [] {
      TrimNulsFixed([]);
    } else {
      var init, last := others[..|others| - 1], others[|others| - 1];
      assert others == init + [last];
      TrimNulsJoin(init, last);
    }
  }

  /** On the registry's bytes: after a removal the PATH has exactly the other entries, and the directory is
      found again exactly if the last of them without trailing NULs, or the empty entry, matches it. */
  lemma RemovedKeepsOthers(bytes: seq<Byte>, dir: Text)
    ensures var path, after := Read(bytes), Read(RemovedBytes(bytes, dir));
            && Split(after) == EntriesLeft(path, dir)
            && (Contains(after, dir) <==> Matches(EntriesLeft(path, dir)[|EntriesLeft(path, dir)| - 1], dir))
  {
    var left := EntriesLeft(Read(bytes), dir);
    ReadWritten(RemovedFrom(Read(bytes), dir));
    RemovedTrims(Read(bytes), dir);
    LeftHasNoSemicolons(Read(bytes), dir);
    SplitJoin(left);
    assert forall e | e in left :: e in left[..|left| - 1] || e == left[|left| - 1];
  }
}
