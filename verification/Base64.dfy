/** Base 64 with padding, section 4 of RFC 4648, decoded strictly. */
module Base64 {
  import opened Outcomes
  import opened Json
  import opened Text

  type Sextet = v: int | 0 <= v < 64

  function Symbol(v: Sextet): char {
    if v < 26 then 'A' + v as char
    else if v < 52 then 'a' + (v - 26) as char
    else if v < 62 then '0' + (v - 52) as char
    else if v == 62 then '+' else '/'
  }

  function Value(c: char): Option<Sextet> {
    if 'A' <= c <= 'Z' then Some((c - 'A') as int)
    else if 'a' <= c <= 'z' then Some((c - 'a') as int + 26)
    else if '0' <= c <= '9' then Some((c - '0') as int + 52)
    else if c == '+' then Some(62)
    else if c == '/' then Some(63)
    else None
  }

  // Three bytes as four sextets, and back.
  function X0(x: Byte): Sextet { x / 4 }
  function X1(x: Byte, y: Byte): Sextet { x % 4 * 16 + y / 16 }
  function X2(y: Byte, z: Byte): Sextet { y % 16 * 4 + z / 64 }
  function X3(z: Byte): Sextet { z % 64 }
  function B0(a: Sextet, b: Sextet): Byte { a * 4 + b / 16 }
  function B1(b: Sextet, c: Sextet): Byte { b % 16 * 16 + c / 4 }
  function B2(c: Sextet, d: Sextet): Byte { c % 4 * 64 + d }

  lemma BytesBack(x: Byte, y: Byte, z: Byte)
    ensures B0(X0(x), X1(x, y)) == x && B1(X1(x, y), X2(y, z)) == y && B2(X2(y, z), X3(z)) == z
  {
  }

  lemma SextetsBack(a: Sextet, b: Sextet, c: Sextet, d: Sextet)
    ensures X0(B0(a, b)) == a && X1(B0(a, b), B1(b, c)) == b
    ensures X2(B1(b, c), B2(c, d)) == c && X3(B2(c, d)) == d
    ensures X1(B0(a, b), 0) == b / 16 * 16 && X2(B1(b, c), 0) == c / 4 * 4
  {
  }

  lemma ValueOfSymbol(v: Sextet)
    ensures Value(Symbol(v)) == Some(v) && Value('=') == None
  {
  }

  lemma SymbolOfValue(c: char)
    requires Value(c).Some?
    ensures Symbol(Value(c).value) == c && Value('=') == None
  {
  }

  /** Three bytes as one group, and one or two last bytes as a padded group. */
  function Group(x: Byte, y: Byte, z: Byte): (s: string)
    ensures |s| == 4
  {
    [Symbol(X0(x)), Symbol(X1(x, y)), Symbol(X2(y, z)), Symbol(X3(z))]
  }

  function PaddedGroup(b: Bytes): (s: string)
    requires |b| == 1 || |b| == 2
    ensures |s| == 4
  {
    if |b| == 1 then [Symbol(X0(b[0])), Symbol(X1(b[0], 0)), '=', '=']
    else [Symbol(X0(b[0])), Symbol(X1(b[0], b[1])), Symbol(X2(b[1], 0)), '=']
  }

  function ReadGroup(s: string): (r: Option<Bytes>)
    requires |s| == 4
    ensures r.Some? ==> |r.value| == 3
  {
    var a, b, c, d := Value(s[0]), Value(s[1]), Value(s[2]), Value(s[3]);
    if a.None? || b.None? || c.None? || d.None? then None
    else Some([B0(a.value, b.value), B1(b.value, c.value), B2(c.value, d.value)])
  }

  function ReadPadded(s: string): (r: Option<Bytes>)
    requires |s| == 4
    ensures r.Some? ==> 1 <= |r.value| <= 2
  {
    var a, b, c := Value(s[0]), Value(s[1]), Value(s[2]);
    if a.None? || b.None? || s[3] != '=' then None
    else if s[2] == '=' then Some([B0(a.value, b.value)])
    else if c.None? then None
    else Some([B0(a.value, b.value), B1(b.value, c.value)])
  }

  function Encode(b: Bytes): string {
    if b == [] then ""
    else if |b| < 3 then PaddedGroup(b)
    else Group(b[0], b[1], b[2]) + Encode(b[3..])
  }

  predicate AllPads(s: string) { forall k | 0 <= k < |s| :: s[k] == '=' }

  /** `b64decode(s, validate=True)`; `None` is its error. Only the last group may be padded; "=" in
      any number is passed over after a complete group, and nothing may follow it. */
  function Decode(s: string): Option<Bytes> {
    if s == "" then Some([])
    else if |s| < 4 then None
    else match ReadGroup(s[..4])
      case None => if |s| == 4 then ReadPadded(s) else None
      case Some(three) =>
        if AllPads(s[4..]) then Some(three)
        else match Decode(s[4..])
          case None => None
          case Some(rest) => Some(three + rest)
  }

  lemma GroupReads(x: Byte, y: Byte, z: Byte)
    ensures ReadGroup(Group(x, y, z)) == Some([x, y, z])
  {
    BytesBack(x, y, z);
    ValueOfSymbol(X0(x)); ValueOfSymbol(X1(x, y)); ValueOfSymbol(X2(y, z)); ValueOfSymbol(X3(z));
    hide Symbol, Value, X0, X1, X2, X3, B0, B1, B2;
  }

  lemma PaddedReads(b: Bytes)
    requires |b| == 1 || |b| == 2
    ensures ReadGroup(PaddedGroup(b)) == None && ReadPadded(PaddedGroup(b)) == Some(b)
  {
    hide Symbol, Value, X0, X1, X2, X3, B0, B1, B2;
    ValueOfSymbol(X0(b[0]));
    if |b| == 1 {
      BytesBack(b[0], 0, 0);
      ValueOfSymbol(X1(b[0], 0));
      assert b == [b[0]];
    } else {
      BytesBack(b[0], b[1], 0);
      ValueOfSymbol(X1(b[0], b[1]));
      ValueOfSymbol(X2(b[1], 0));
      assert b == [b[0], b[1]];
    }
  }

  lemma EncodedStarts(b: Bytes)
    requires b != []
    ensures !AllPads(Encode(b))
  {
    ValueOfSymbol(X0(b[0]));
    hide Symbol, Value, X0;
    assert Encode(b)[0] == Symbol(X0(b[0]));
  }

  lemma DecodeGroup(group: string, rest: string)
    requires |group| == 4 && ReadGroup(group).Some? && (rest == "" || !AllPads(rest))
    ensures Decode(group + rest) ==
            match Decode(rest) case None => None case Some(more) => Some(ReadGroup(group).value + more)
  {
    hide ReadGroup, ReadPadded;
    assert (group + rest)[..4] == group && (group + rest)[4..] == rest;
    if rest == "" { assert ReadGroup(group).value + [] == ReadGroup(group).value; }
  }

  /** Decoding undoes encoding, for every byte string. */
  lemma {:induction false} DecodeEncode(b: Bytes)
    ensures Decode(Encode(b)) == Some(b)
  {
    hide Group, PaddedGroup, ReadGroup, ReadPadded, AllPads;
    if 0 < |b| < 3 {
      PaddedReads(b);
      assert PaddedGroup(b)[..4] == PaddedGroup(b);
    } else if b != [] {
      var group, rest := Group(b[0], b[1], b[2]), Encode(b[3..]);
      GroupReads(b[0], b[1], b[2]);
      DecodeEncode(b[3..]);
      if b[3..] != [] { EncodedStarts(b[3..]); }
      DecodeGroup(group, rest);
      assert b == [b[0], b[1], b[2]] + b[3..];
    }
  }

  /** An "=" stands where a group would begin: padding that pads nothing. */
  predicate SurplusPad(s: string) {
    var data := FirstOf(s, {'='});
    data < |s| && data % 4 == 0
  }

  /** The bits of the last symbol that padding leaves over are zero. */
  predicate SpareBitsZero(s: string) {
    |s| >= 4 && s[|s| - 1] == '=' ==>
      if s[|s| - 2] == '=' then SpareZero(s[|s| - 3], 16) else SpareZero(s[|s| - 2], 4)
  }

  predicate SpareZero(c: char, unit: nat)
    requires unit > 0
  {
    match Value(c) case Some(v) => v % unit == 0 case None => false
  }

  lemma ReadsGroup(s: string)
    requires |s| == 4 && ReadGroup(s).Some?
    ensures var b := ReadGroup(s).value; Group(b[0], b[1], b[2]) == s && s[3] != '='
  {
    SymbolOfValue(s[0]); SymbolOfValue(s[1]); SymbolOfValue(s[2]); SymbolOfValue(s[3]);
    SextetsBack(Value(s[0]).value, Value(s[1]).value, Value(s[2]).value, Value(s[3]).value);
    hide Value, Symbol, X0, X1, X2, X3, B0, B1, B2;
  }

  lemma RoundedSymbol(c: char, unit: nat)
    requires Value(c).Some? && (unit == 4 || unit == 16)
    ensures Symbol(Value(c).value / unit * unit) == c <==> SpareZero(c, unit)
  {
    hide Symbol, Value;
    var v := Value(c).value;
    SymbolOfValue(c);
    ValueOfSymbol(if unit == 4 then v / 4 * 4 else v / 16 * 16);
  }

  lemma ReadsPadded(s: string)
    requires |s| == 4 && ReadPadded(s).Some?
    ensures PaddedGroup(ReadPadded(s).value) == s <==> SpareBitsZero(s)
  {
    SymbolOfValue(s[0]); SymbolOfValue(s[1]);
    var a, b := Value(s[0]).value, Value(s[1]).value;
    if s[2] == '=' {
      SextetsBack(a, b, 0, 0);
      RoundedSymbol(s[1], 16);
      hide Value, Symbol, X0, X1, X2, X3, B0, B1, B2, SpareZero;
      assert PaddedGroup(ReadPadded(s).value) == [s[0], Symbol(b / 16 * 16), '=', '='];
    } else {
      SymbolOfValue(s[2]);
      SextetsBack(a, b, Value(s[2]).value, 0);
      RoundedSymbol(s[2], 4);
      hide Value, Symbol, X0, X1, X2, X3, B0, B1, B2, SpareZero;
      assert PaddedGroup(ReadPadded(s).value) == [s[0], s[1], Symbol(Value(s[2]).value / 4 * 4), '='];
    }
    assert s == [s[0], s[1], s[2], s[3]];
  }

  lemma NoPadInGroup(group: string, rest: string)
    requires |group| == 4 && ReadGroup(group).Some?
    ensures SurplusPad(group + rest) <==> SurplusPad(rest)
    ensures SpareBitsZero(group)
  {
    GroupHasNoPad(group);
    hide ReadGroup, SpareZero, Value;
    PadAfter(group, rest);
  }

  lemma GroupHasNoPad(group: string)
    requires |group| == 4 && ReadGroup(group).Some?
    ensures forall k | 0 <= k < 4 :: group[k] != '='
  {
    SymbolOfValue(group[0]); SymbolOfValue(group[1]); SymbolOfValue(group[2]); SymbolOfValue(group[3]);
    hide Value, Symbol, B0, B1, B2;
  }

  lemma PadAfter(group: string, rest: string)
    requires |group| == 4 && forall k | 0 <= k < 4 :: group[k] != '='
    ensures FirstOf(group + rest, {'='}) == 4 + FirstOf(rest, {'='})
  {
    FirstOfAt(group + rest, {'='}, 4 + FirstOf(rest, {'='}));
  }

  lemma NoPadFirst(s: string)
    requires |s| == 4 && ReadPadded(s).Some?
    ensures !SurplusPad(s) && !AllPads(s)
  {
    SymbolOfValue(s[0]); SymbolOfValue(s[1]);
    hide Value, Symbol, B0, B1, B2;
    FirstOfAt(s, {'='}, if s[2] == '=' then 2 else 3);
  }

  /** What is left of an accepted text after a group is nothing, pads, or a group again. */
  lemma AcceptedRest(s: string)
    requires Decode(s).Some? && s != ""
    ensures |s| >= 4 && !AllPads(s)
  {
    hide ReadPadded;
    if ReadGroup(s[..4]).Some? {
      ReadsGroup(s[..4]);
      assert s[3] != '=';
    } else {
      NoPadFirst(s);
    }
  }

  lemma PadsAreSurplus(s: string)
    requires s != "" && AllPads(s)
    ensures SurplusPad(s)
  {
    FirstOfAt(s, {'='}, 0);
  }

  /** An accepted text is what the encoder writes exactly when those bits are zero and no "=" is
      surplus: the strict decoder looks at neither. */
  lemma {:induction false} EncodeDecodeExactly(s: string)
    requires Decode(s).Some?
    ensures Encode(Decode(s).value) == s <==> SpareBitsZero(s) && !SurplusPad(s)
  {
    hide ReadGroup, ReadPadded, Group, PaddedGroup, SpareZero, SurplusPad, FirstOf;
    if s == "" {
      NothingSurplus();
    } else if ReadGroup(s[..4]).None? {
      ReadsPadded(s);
      NoPadFirst(s);
    } else {
      var group, rest := s[..4], s[4..];
      assert s == group + rest;
      ReadsGroup(group);
      NoPadInGroup(group, rest);
      if rest == "" {
        NothingSurplus();
        assert Encode(ReadGroup(group).value) == group + Encode([]);
      } else if AllPads(rest) {
        PadsAreSurplus(rest);
        assert |Encode(ReadGroup(group).value)| == 4;
      } else {
        AcceptedRest(rest);
        EncodeDecodeExactly(rest);
        GroupThenRest(group, rest);
      }
    }
  }

  lemma NothingSurplus()
    ensures !SurplusPad("")
  {
  }

  lemma GroupThenRest(group: string, rest: string)
    requires |group| == 4 && ReadGroup(group).Some? && |rest| >= 4 && !AllPads(rest) && Decode(rest).Some?
    ensures Decode(group + rest).Some?
    ensures Encode(Decode(group + rest).value) == group + rest <==> Encode(Decode(rest).value) == rest
    ensures SpareBitsZero(group + rest) <==> SpareBitsZero(rest)
  {
    DecodeGroup(group, rest);
    ReadsGroup(group);
    SameEnd(group, rest);
    hide ReadGroup, Group, PaddedGroup, SpareBitsZero, AllPads, Decode;
    var three, more := ReadGroup(group).value, Decode(rest).value;
    assert (three + more)[3..] == more;
    assert Encode(three + more) == group + Encode(more);
    assert (group + Encode(more))[4..] == Encode(more) && (group + rest)[4..] == rest;
  }

  lemma SameEnd(group: string, rest: string)
    requires |rest| >= 4
    ensures SpareBitsZero(group + rest) <==> SpareBitsZero(rest)
  {
    hide SpareZero;
    var s := group + rest;
    assert s[|s| - 1] == rest[|rest| - 1] && s[|s| - 2] == rest[|rest| - 2] && s[|s| - 3] == rest[|rest| - 3];
  }

  /** An accepted text with a surplus pad. */
  lemma SurplusPadAccepted()
    ensures Decode("QUJD=") == Some([65, 66, 67]) && Encode([65, 66, 67]) == "QUJD"
  {
    SymbolsOfAbc();
    hide Symbol, Value, X0, X1, X2, X3, B0, B1, B2, ReadGroup, ReadPadded;
    GroupReads(65, 66, 67);
    assert [65, 66, 67][3..] == [];
    assert "QUJD="[..4] == "QUJD" && "QUJD="[4..] == "=";
    assert AllPads("=");
  }

  lemma SymbolsOfAbc()
    ensures Group(65, 66, 67) == "QUJD"
  {
  }
}
