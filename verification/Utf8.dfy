/** The UTF-8 canonicaliser of the logger.

Masks and shifts are written as remainders, ranges and multiples: `b & 0x3f` is `b % 64`,
`(b & 0xe0) == 0xc0` is `0xC0 <= b < 0xE0`, and disjoint bit fields are added.
*/
module Utf8 {
  type Octet = x: int | 0 <= x < 256
  type CodePoint = nat

  const MAX_CODE_POINT: nat := 0x10FFFF

  datatype Result<T> = Ok(value: T) | InvalidUtf8 | InvalidCodePoint

  // One decoded group: a code point and the number of bytes it took.
  datatype Group = Bad | Group(cp: CodePoint, len: nat)

  // The payload bits of a continuation byte, and of a lead byte with `m` values of payload.
  function Six(b: Octet): (r: nat)
    ensures r < 64
  {
    b % 64
  }

  function Lead(b: Octet, m: nat): (r: nat)
    requires m > 0
    ensures r < m
  {
    b % m
  }

  function Join2(a: nat, b: nat): nat
  {
    a * 64 + b
  }

  function Join3(a: nat, b: nat, c: nat): nat
  {
    a * 4096 + b * 64 + c
  }

  function Join4(a: nat, b: nat, c: nat, d: nat): nat
  {
    a * 262144 + b * 4096 + c * 64 + d
  }

  /** The decoder of the source: it looks at the lead byte and never checks the others. */
  function ReadGroup(s: seq<Octet>): (g: Group)
    requires s != []
    ensures g.Group? ==> 1 <= g.len <= |s| && g.cp < 0x20_0000
  {
    var b := s[0];
    if b < 0x80 then Group(b, 1)
    else if 0xC0 <= b < 0xE0 then
      if |s| < 2 then Bad else Group(Join2(Lead(b, 32), Six(s[1])), 2)
    else if 0xE0 <= b < 0xF0 then
      if |s| < 3 then Bad else Group(Join3(Lead(b, 16), Six(s[1]), Six(s[2])), 3)
    else if 0xF0 <= b < 0xF8 then
      if |s| < 4 then Bad else Group(Join4(Lead(b, 8), Six(s[1]), Six(s[2]), Six(s[3])), 4)
    else Bad
  }

  // ----- the same decoder, by counting the leading one bits -----

  // The number of one bits before the first zero bit, by shifting them out.
  function LeadingOnes(b: Octet): nat
    decreases b
  {
    if b < 128 then 0 else 1 + LeadingOnes((b - 128) * 2)
  }

  // The bits after the leading ones and the zero that ends them.
  function Unmarked(b: Octet): nat
  {
    if b < 0xC0 then b else if b < 0xE0 then b - 0xC0 else if b < 0xF0 then b - 0xE0 else b - 0xF0
  }

  // Six more bits from each following byte.
  function Accumulate(acc: nat, bytes: seq<Octet>): nat
    decreases |bytes|
  {
    if bytes == [] then acc else Accumulate(acc * 64 + bytes[0] % 64, bytes[1..])
  }

  lemma OnesRanges(b: Octet)
    ensures LeadingOnes(b) == 0 <==> b < 0x80
    ensures LeadingOnes(b) == 1 <==> 0x80 <= b < 0xC0
    ensures LeadingOnes(b) == 2 <==> 0xC0 <= b < 0xE0
    ensures LeadingOnes(b) == 3 <==> 0xE0 <= b < 0xF0
    ensures LeadingOnes(b) == 4 <==> 0xF0 <= b < 0xF8
  {
    if b >= 0x80 {
      var c: Octet := (b - 128) * 2;
      if c >= 0x80 {
        var d: Octet := (c - 128) * 2;
        if d >= 0x80 {
          var e: Octet := (d - 128) * 2;
          assert e >= 0x80 ==> LeadingOnes(e) == 1 + LeadingOnes((e - 128) * 2);
        }
      }
    }
  }

  lemma AccumulateFront(acc: nat, b: Octet, rest: seq<Octet>)
    ensures Accumulate(acc, [b] + rest) == Accumulate(acc * 64 + b % 64, rest)
  {
    assert ([b] + rest)[0] == b && ([b] + rest)[1..] == rest;
  }

  lemma AccumulateOne(acc: nat, b: Octet)
    ensures Accumulate(acc, [b]) == Join2(acc, Six(b))
  {
    AccumulateFront(acc, b, []);
    assert [b] + [] == [b];
  }

  lemma AccumulateTwo(acc: nat, b: Octet, c: Octet)
    ensures Accumulate(acc, [b, c]) == Join3(acc, Six(b), Six(c))
  {
    AccumulateFront(acc, b, [c]);
    assert [b] + [c] == [b, c];
    AccumulateOne(acc * 64 + b % 64, c);
  }

  lemma AccumulateThree(acc: nat, b: Octet, c: Octet, d: Octet)
    ensures Accumulate(acc, [b, c, d]) == Join4(acc, Six(b), Six(c), Six(d))
  {
    AccumulateFront(acc, b, [c, d]);
    assert [b] + [c, d] == [b, c, d];
    AccumulateTwo(acc * 64 + b % 64, c, d);
  }

  /** For every input, valid or not: a group of the source is one byte without leading ones, or as many
      bytes as the first has leading ones, from two to four and no more than there are; its code point
      is the rest of the first byte and the low six bits of each other. Anything else is refused. */
  lemma GroupByOnes(s: seq<Octet>)
    requires s != []
    ensures
      var k := LeadingOnes(s[0]);
      ReadGroup(s) ==
        if k == 0 then Group(s[0], 1)
        else if k == 1 || k > 4 || k > |s| then Bad
        else Group(Accumulate(Unmarked(s[0]), s[1..k]), k)
  {
    var k, b := LeadingOnes(s[0]), s[0];
    OnesRanges(b);
    LeadExact(b);
    if 2 <= k <= 4 && k <= |s| {
      if k == 2 {
        assert s[1..2] == [s[1]];
        AccumulateOne(Unmarked(b), s[1]);
      } else if k == 3 {
        assert s[1..3] == [s[1], s[2]];
        AccumulateTwo(Unmarked(b), s[1], s[2]);
      } else {
        assert s[1..4] == [s[1], s[2], s[3]];
        AccumulateThree(Unmarked(b), s[1], s[2], s[3]);
      }
    }
  }

  function Encode(cp: CodePoint): seq<Octet>
    requires cp <= MAX_CODE_POINT
  {
    if cp <= 0x7F then [cp]
    else if cp <= 0x7FF then [0xC0 + cp / 64, 0x80 + cp % 64]
    else if cp <= 0xFFFF then [0xE0 + cp / 4096, 0x80 + (cp / 64) % 64, 0x80 + cp % 64]
    else [0xF0 + cp / 262144, 0x80 + (cp / 4096) % 64, 0x80 + (cp / 64) % 64, 0x80 + cp % 64]
  }

  /** What the canonicaliser returns or throws. */
  function Canonical(s: seq<Octet>, t: CodePoint -> CodePoint): Result<seq<Octet>>
    decreases |s|
  {
    if s == [] then Ok([])
    else
      match ReadGroup(s)
      case Bad => InvalidUtf8
      case Group(cp, len) =>
        if t(cp) > MAX_CODE_POINT then InvalidCodePoint
        else
          match Canonical(s[len..], t)
          case Ok(rest) => Ok(Encode(t(cp)) + rest)
          case InvalidUtf8 => InvalidUtf8
          case InvalidCodePoint => InvalidCodePoint
  }

  // The code points the source reads before it throws or reaches the end.
  function Read(s: seq<Octet>): seq<CodePoint>
    decreases |s|
  {
    if s == [] || ReadGroup(s).Bad? then []
    else [ReadGroup(s).cp] + Read(s[ReadGroup(s).len..])
  }

  predicate Readable(s: seq<Octet>)
    decreases |s|
  {
    s == [] || (ReadGroup(s).Group? && Readable(s[ReadGroup(s).len..]))
  }

  function Map(t: CodePoint -> CodePoint, cps: seq<CodePoint>): seq<CodePoint>
  {
    if cps == [] then [] else [t(cps[0])] + Map(t, cps[1..])
  }

  // ----- the loop -----

  // One group at position `i`, with the source's own bounds tests on the bytes that follow.
  method NextGroup(s: seq<Octet>, i: nat) returns (g: Group)
    requires i < |s|
    ensures g == ReadGroup(s[i..])
  {
    var avail := |s| - i - 1;
    var b := s[i];
    if b < 0x80 {
      return Group(b, 1);
    } else if 0xC0 <= b < 0xE0 {
      if avail < 1 { return Bad; }
      return Group(Join2(Lead(b, 32), Six(s[i + 1])), 2);
    } else if 0xE0 <= b < 0xF0 {
      if avail < 2 { return Bad; }
      return Group(Join3(Lead(b, 16), Six(s[i + 1]), Six(s[i + 2])), 3);
    } else if 0xF0 <= b < 0xF8 {
      if avail < 3 { return Bad; }
      return Group(Join4(Lead(b, 8), Six(s[i + 1]), Six(s[i + 2]), Six(s[i + 3])), 4);
    }
    return Bad;
  }

  // What is left to do once `sc` has been emitted.
  function After(sc: seq<Octet>, r: Result<seq<Octet>>): Result<seq<Octet>>
  {
    if r.Ok? then Ok(sc + r.value) else r
  }

  lemma AfterNothing(r: Result<seq<Octet>>)
    ensures After([], r) == r
  {
    if r.Ok? {
      assert [] + r.value == r.value;
    }
  }

  // One turn: a refusal ends everything, and what is emitted joins what has been.
  lemma EmitOne(sc: seq<Octet>, s: seq<Octet>, t: CodePoint -> CodePoint, g: Group)
    requires s != [] && g == ReadGroup(s)
    ensures After(sc, Canonical(s, t)) ==
      if g.Bad? then InvalidUtf8
      else if t(g.cp) > MAX_CODE_POINT then InvalidCodePoint
      else After(sc + Encode(t(g.cp)), Canonical(s[g.len..], t))
  {
    if g.Group? && t(g.cp) <= MAX_CODE_POINT {
      var rest := Canonical(s[g.len..], t);
      if rest.Ok? {
        assert sc + (Encode(t(g.cp)) + rest.value) == (sc + Encode(t(g.cp))) + rest.value;
      }
    }
  }

  lemma EmitNone(sc: seq<Octet>, t: CodePoint -> CodePoint)
    ensures After(sc, Canonical([], t)) == Ok(sc)
  {
    assert sc + [] == sc;
  }

  method Utf8Canonical(s: seq<Octet>, t: CodePoint -> CodePoint) returns (r: Result<seq<Octet>>)
    ensures r == Canonical(s, t)
  {
    var sc: seq<Octet> := [];
    var i := 0;
    ghost var all := Canonical(s, t);
    assert s[0..] == s;
    AfterNothing(all);
    while i < |s|
      invariant 0 <= i <= |s|
      invariant all == After(sc, Canonical(s[i..], t))
      decreases |s| - i
    {
      var g := NextGroup(s, i);
      EmitOne(sc, s[i..], t, g);
      if g.Bad? {
        return InvalidUtf8;
      }
      var cp := t(g.cp);
      if cp > MAX_CODE_POINT {
        return InvalidCodePoint;
      }
      assert s[i..][g.len..] == s[i + g.len..];
      sc := sc + Encode(cp);
      i := i + g.len;
    }
    assert s[i..] == [];
    EmitNone(sc, t);
    r := Ok(sc);
  }

  // ----- the shortest form -----

  predicate Continues(b: Octet)
  {
    0x80 <= b < 0xC0
  }

  // Shortest form only, continuation bytes checked, nothing above U+10FFFF. Surrogates are let through.
  function ShortGroup(s: seq<Octet>): Group
    requires s != []
  {
    var b := s[0];
    if b < 0x80 then Group(b, 1)
    else if 0xC2 <= b < 0xE0 && |s| >= 2 && Continues(s[1]) then
      Group(Join2(b - 0xC0, s[1] - 0x80), 2)
    else if 0xE0 <= b < 0xF0 && |s| >= 3 && Continues(s[1]) && Continues(s[2]) && (b == 0xE0 ==> s[1] >= 0xA0) then
      Group(Join3(b - 0xE0, s[1] - 0x80, s[2] - 0x80), 3)
    else if 0xF0 <= b <= 0xF4 && |s| >= 4 && Continues(s[1]) && Continues(s[2]) && Continues(s[3]) &&
            (b == 0xF0 ==> s[1] >= 0x90) && (b == 0xF4 ==> s[1] < 0x90) then
      Group(Join4(b - 0xF0, s[1] - 0x80, s[2] - 0x80, s[3] - 0x80), 4)
    else Bad
  }

  ghost predicate Decodes(s: seq<Octet>, cps: seq<CodePoint>)
    decreases |cps|
  {
    if cps == [] then s == []
    else
      && s != [] && ShortGroup(s).Group?
      && ShortGroup(s).cp == cps[0] && ShortGroup(s).len <= |s|
      && Decodes(s[ShortGroup(s).len..], cps[1..])
  }

  lemma EncodeDecodes2(cp: CodePoint, s: seq<Octet>)
    requires 0x7F < cp <= 0x7FF && |s| >= 2 && s[..2] == Encode(cp)
    ensures ShortGroup(s) == Group(cp, 2)
  {
    assert s[0] == s[..2][0] && s[1] == s[..2][1];
  }

  lemma EncodeDecodes3(cp: CodePoint, s: seq<Octet>)
    requires 0x7FF < cp <= 0xFFFF && |s| >= 3 && s[..3] == Encode(cp)
    ensures ShortGroup(s) == Group(cp, 3)
  {
    assert s[0] == s[..3][0] && s[1] == s[..3][1] && s[2] == s[..3][2];
  }

  // The base-64 digits of a code point of four bytes.
  lemma Digits4(cp: CodePoint) returns (a: nat, b: nat, c: nat, d: nat)
    requires 0xFFFF < cp <= MAX_CODE_POINT
    ensures a == cp / 262144 && b == (cp / 4096) % 64 && c == (cp / 64) % 64 && d == cp % 64
    ensures a <= 4 && b < 64 && c < 64 && d < 64 && Join4(a, b, c, d) == cp
    ensures (a == 0 ==> b >= 16) && (a == 4 ==> b < 16)
  {
    var x := cp / 64;
    d := cp % 64;
    assert cp == 64 * x + d;
    var y := x / 64;
    c := x % 64;
    assert x == 64 * y + c && y == cp / 4096;
    a, b := y / 64, y % 64;
    assert y == 64 * a + b && a == cp / 262144;
  }

  lemma EncodeDecodes4(cp: CodePoint, s: seq<Octet>)
    requires 0xFFFF < cp <= MAX_CODE_POINT && |s| >= 4 && s[..4] == Encode(cp)
    ensures ShortGroup(s) == Group(cp, 4)
  {
    var a, b, c, d := Digits4(cp);
    assert s[..4] == [0xF0 + a, 0x80 + b, 0x80 + c, 0x80 + d];
    assert s[0] == s[..4][0] && s[1] == s[..4][1] && s[2] == s[..4][2] && s[3] == s[..4][3];
  }

  /** Decoding an emitted group in the shortest form gives the code point back. */
  lemma EncodeDecodes(cp: CodePoint, rest: seq<Octet>)
    requires cp <= MAX_CODE_POINT
    ensures ShortGroup(Encode(cp) + rest) == Group(cp, |Encode(cp)|)
    ensures (Encode(cp) + rest)[|Encode(cp)|..] == rest
  {
    var s := Encode(cp) + rest;
    assert s[..|Encode(cp)|] == Encode(cp);
    if cp <= 0x7F {
      assert s[0] == cp;
    } else if cp <= 0x7FF {
      EncodeDecodes2(cp, s);
    } else if cp <= 0xFFFF {
      EncodeDecodes3(cp, s);
    } else {
      EncodeDecodes4(cp, s);
    }
  }

  lemma Shortest2(a: nat, b: nat)
    requires 2 <= a < 32 && b < 64
    ensures 0x7F < Join2(a, b) <= 0x7FF && Encode(Join2(a, b)) == [0xC0 + a, 0x80 + b]
  {
    assert Join2(a, b) / 64 == a && Join2(a, b) % 64 == b;
  }

  lemma Shortest3(a: nat, b: nat, c: nat)
    requires a < 16 && b < 64 && c < 64 && (a == 0 ==> b >= 32)
    ensures 0x7FF < Join3(a, b, c) <= 0xFFFF && Encode(Join3(a, b, c)) == [0xE0 + a, 0x80 + b, 0x80 + c]
  {
    var cp := Join3(a, b, c);
    assert cp % 64 == c && cp / 64 == Join2(a, b);
    assert cp / 4096 == a;
  }

  lemma Shortest4(a: nat, b: nat, c: nat, d: nat)
    requires a <= 4 && b < 64 && c < 64 && d < 64 && (a == 0 ==> b >= 16) && (a == 4 ==> b < 16)
    ensures 0xFFFF < Join4(a, b, c, d) <= MAX_CODE_POINT
    ensures Encode(Join4(a, b, c, d)) == [0xF0 + a, 0x80 + b, 0x80 + c, 0x80 + d]
  {
    var cp, x, y := Join4(a, b, c, d), Join3(a, b, c), Join2(a, b);
    assert cp == 64 * x + d && x == 64 * y + c && y == 64 * a + b;
    assert cp / 64 == x && cp % 64 == d;
    assert x / 64 == y && x % 64 == c && cp / 4096 == y;
    assert y / 64 == a && y % 64 == b && cp / 262144 == a;
  }

  lemma LeadExact(b: Octet)
    ensures 0xC0 <= b < 0xE0 ==> Lead(b, 32) == b - 0xC0
    ensures 0xE0 <= b < 0xF0 ==> Lead(b, 16) == b - 0xE0
    ensures 0xF0 <= b < 0xF8 ==> Lead(b, 8) == b - 0xF0
  {}

  lemma SixExact(b: Octet)
    requires Continues(b)
    ensures Six(b) == b - 0x80
  {}

  // On a shortest form, the source's unchecked reading agrees.
  lemma ReadsAlike(s: seq<Octet>)
    requires s != [] && ShortGroup(s).Group?
    ensures ReadGroup(s) == ShortGroup(s) && 1 <= ShortGroup(s).len <= |s|
  {
    LeadExact(s[0]);
    if s[0] >= 0x80 {
      SixExact(s[1]);
      if s[0] >= 0xE0 {
        SixExact(s[2]);
        if s[0] >= 0xF0 {
          SixExact(s[3]);
        }
      }
    }
  }

  /** A group in the shortest form is what the source emits for its code point, and is read alike. */
  lemma ShortIsEncoded(s: seq<Octet>)
    requires s != [] && ShortGroup(s).Group?
    ensures 1 <= ShortGroup(s).len <= |s| && ShortGroup(s).cp <= MAX_CODE_POINT
    ensures s[..ShortGroup(s).len] == Encode(ShortGroup(s).cp)
    ensures ReadGroup(s) == ShortGroup(s)
  {
    ReadsAlike(s);
    if s[0] < 0x80 {
      assert s[..1] == [s[0]];
    } else if s[0] < 0xE0 {
      Shortest2(s[0] - 0xC0, s[1] - 0x80);
      assert s[..2] == [s[0], s[1]];
    } else if s[0] < 0xF0 {
      Shortest3(s[0] - 0xE0, s[1] - 0x80, s[2] - 0x80);
      assert s[..3] == [s[0], s[1], s[2]];
    } else {
      Shortest4(s[0] - 0xF0, s[1] - 0x80, s[2] - 0x80, s[3] - 0x80);
      assert s[..4] == [s[0], s[1], s[2], s[3]];
    }
  }

  // One turn of the canonicaliser.
  lemma CanonicalTurn(s: seq<Octet>, t: CodePoint -> CodePoint, g: Group)
    requires s != [] && g == ReadGroup(s)
    ensures Canonical(s, t).Ok? <==> g.Group? && t(g.cp) <= MAX_CODE_POINT && Canonical(s[g.len..], t).Ok?
    ensures Canonical(s, t).Ok? ==> Canonical(s, t).value == Encode(t(g.cp)) + Canonical(s[g.len..], t).value
    ensures g.Group? ==> Read(s) == [g.cp] + Read(s[g.len..])
    ensures Readable(s) <==> g.Group? && Readable(s[g.len..])
  {}

  // The canonicaliser succeeds exactly on readable input whose transformed code points fit.
  lemma {:induction false} CanonicalSucceeds(s: seq<Octet>, t: CodePoint -> CodePoint)
    ensures Canonical(s, t).Ok? <==> Readable(s) && forall cp :: cp in Read(s) ==> t(cp) <= MAX_CODE_POINT
    decreases |s|
  {
    if s == [] {
    } else {
      var g := ReadGroup(s);
      CanonicalTurn(s, t, g);
      if g.Group? {
        CanonicalSucceeds(s[g.len..], t);
        assert forall cp :: cp in Read(s) <==> cp == g.cp || cp in Read(s[g.len..]);
      }
    }
  }

  lemma DecodesFront(e: seq<Octet>, cp: CodePoint, r: seq<Octet>, cps: seq<CodePoint>)
    requires e != [] && ShortGroup(e + r) == Group(cp, |e|) && Decodes(r, cps)
    ensures Decodes(e + r, [cp] + cps)
  {
    assert (e + r)[|e|..] == r && ([cp] + cps)[1..] == cps;
  }

  lemma DecodesCons(cp: CodePoint, r: seq<Octet>, cps: seq<CodePoint>)
    requires cp <= MAX_CODE_POINT && Decodes(r, cps)
    ensures Decodes(Encode(cp) + r, [cp] + cps)
  {
    EncodeDecodes(cp, r);
    DecodesFront(Encode(cp), cp, r, cps);
  }

  /** The output is the shortest form of exactly the transformed code points read. */
  lemma {:induction false} CanonicalDecodes(s: seq<Octet>, t: CodePoint -> CodePoint)
    requires Canonical(s, t).Ok?
    ensures Decodes(Canonical(s, t).value, Map(t, Read(s)))
    decreases |s|
  {
    if s == [] {
    } else {
      var g := ReadGroup(s);
      CanonicalTurn(s, t, g);
      CanonicalDecodes(s[g.len..], t);
      DecodesCons(t(g.cp), Canonical(s[g.len..], t).value, Map(t, Read(s[g.len..])));
      assert Read(s)[1..] == Read(s[g.len..]);
    }
  }

  lemma UnchangedFront(s: seq<Octet>, t: CodePoint -> CodePoint, g: Group)
    requires s != [] && g == ReadGroup(s) && g.Group? && t(g.cp) == g.cp <= MAX_CODE_POINT
    requires s[..g.len] == Encode(g.cp) && Canonical(s[g.len..], t) == Ok(s[g.len..])
    ensures Canonical(s, t) == Ok(s) && Read(s) == [g.cp] + Read(s[g.len..])
  {
    var rest := s[g.len..];
    assert Canonical(s, t) == Ok(Encode(g.cp) + rest) && Read(s) == [g.cp] + Read(rest) by { CanonicalTurn(s, t, g); }
    assert s == s[..g.len] + rest;
  }

  // A shortest form is read back, and is a fixed point of a transform that leaves its code points alone.
  lemma {:induction false} ValidUnchanged(s: seq<Octet>, cps: seq<CodePoint>, t: CodePoint -> CodePoint)
    requires Decodes(s, cps) && forall cp :: cp in cps ==> t(cp) == cp
    ensures Canonical(s, t) == Ok(s) && Read(s) == cps
    decreases |cps|
  {
    if cps == [] {
    } else {
      var g := ShortGroup(s);
      ShortIsEncoded(s);
      assert cps[0] in cps && forall cp :: cp in cps[1..] ==> cp in cps;
      ValidUnchanged(s[g.len..], cps[1..], t);
      UnchangedFront(s, t, g);
    }
  }

  // ----- validity: RFC 3629, sections 3 and 4 -----

  predicate Surrogate(cp: CodePoint)
  {
    0xD800 <= cp <= 0xDFFF
  }

  // The table of section 4: for some lead bytes the range of the second byte is narrower.
  predicate SecondByte(lead: Octet, b: Octet)
  {
    if lead == 0xE0 then 0xA0 <= b < 0xC0
    else if lead == 0xED then 0x80 <= b < 0xA0
    else if lead == 0xF0 then 0x90 <= b < 0xC0
    else if lead == 0xF4 then 0x80 <= b < 0x90
    else Continues(b)
  }

  // The number of bytes of the valid character that the text starts with; none is 0.
  function ValidLength(s: seq<Octet>): (n: nat)
    requires s != []
    ensures n <= |s|
  {
    if s[0] < 0x80 then 1
    else if 0xC2 <= s[0] < 0xE0 && |s| >= 2 && SecondByte(s[0], s[1]) then 2
    else if 0xE0 <= s[0] < 0xF0 && |s| >= 3 && SecondByte(s[0], s[1]) && Continues(s[2]) then 3
    else if 0xF0 <= s[0] <= 0xF4 && |s| >= 4 && SecondByte(s[0], s[1]) && Continues(s[2]) && Continues(s[3]) then 4
    else 0
  }

  predicate Valid(s: seq<Octet>)
    decreases |s|
  {
    s == [] || (ValidLength(s) > 0 && Valid(s[ValidLength(s)..]))
  }

  /** A valid character is the shortest form of a code point that is no surrogate. */
  lemma ValidGroup(s: seq<Octet>)
    requires s != []
    ensures ValidLength(s) > 0 <==> ShortGroup(s).Group? && !Surrogate(ShortGroup(s).cp)
    ensures ValidLength(s) > 0 ==> ValidLength(s) == ShortGroup(s).len
  {}

  // A shortest form is valid exactly when it encodes no surrogate.
  lemma {:induction false} ShortFormValidIff(s: seq<Octet>, cps: seq<CodePoint>)
    requires Decodes(s, cps)
    ensures Valid(s) <==> forall cp :: cp in cps ==> !Surrogate(cp)
    decreases |cps|
  {
    if cps == [] {
    } else {
      ValidGroup(s);
      ShortFormValidIff(s[ShortGroup(s).len..], cps[1..]);
      assert forall cp :: cp in cps <==> cp == cps[0] || cp in cps[1..];
    }
  }

  /** The output is valid UTF-8 if and only if no transformed code point is a surrogate. */
  lemma CanonicalValidIff(s: seq<Octet>, t: CodePoint -> CodePoint)
    requires Canonical(s, t).Ok?
    ensures Valid(Canonical(s, t).value) <==> forall cp :: cp in Map(t, Read(s)) ==> !Surrogate(cp)
  {
    CanonicalDecodes(s, t);
    ShortFormValidIff(Canonical(s, t).value, Map(t, Read(s)));
  }

  // Valid text is the shortest form of what the source reads.
  lemma {:induction false} ValidReads(s: seq<Octet>)
    requires Valid(s)
    ensures Decodes(s, Read(s)) && Readable(s)
    ensures forall cp :: cp in Read(s) ==> cp <= MAX_CODE_POINT
    decreases |s|
  {
    if s == [] {
    } else {
      ValidGroup(s);
      ShortIsEncoded(s);
      ValidReads(s[ShortGroup(s).len..]);
      assert Read(s)[1..] == Read(s[ShortGroup(s).len..]);
    }
  }

  // ----- sanitize -----

  function Clean(c: CodePoint): CodePoint
  {
    if c == 9 || c == 10 || c == 13 then c
    else if c < 0x20 || c == 0x7F || 0x80 <= c <= 0x9F then '?' as int
    else c
  }

  predicate IsControl(c: CodePoint)
  {
    (c < 0x20 && c != 9 && c != 10 && c != 13) || 0x7F <= c <= 0x9F
  }

  function Sanitize(s: seq<Octet>): Result<seq<Octet>>
  {
    Canonical(s, Clean)
  }

  lemma {:induction false} MapMember(t: CodePoint -> CodePoint, cps: seq<CodePoint>, x: CodePoint)
    requires x in Map(t, cps)
    ensures exists c :: c in cps && x == t(c)
    decreases |cps|
  {
    if x == t(cps[0]) {
      assert cps[0] in cps;
    } else {
      MapMember(t, cps[1..], x);
      var c :| c in cps[1..] && x == t(c);
      assert c in cps;
    }
  }

  /** Sanitizing leaves no control code points except tab, line feed and carriage return, and a
      second pass neither throws nor changes anything. */
  lemma SanitizeIdempotent(s: seq<Octet>)
    requires Sanitize(s).Ok?
    ensures Sanitize(Sanitize(s).value) == Sanitize(s)
    ensures Decodes(Sanitize(s).value, Map(Clean, Read(s)))
    ensures forall x :: x in Map(Clean, Read(s)) ==> !IsControl(x)
  {
    var r := Sanitize(s).value;
    var cps := Map(Clean, Read(s));
    CanonicalDecodes(s, Clean);
    forall x | x in cps
      ensures Clean(x) == x && !IsControl(x)
    {
      MapMember(Clean, Read(s), x);
    }
    ValidUnchanged(r, cps, Clean);
  }

  /** Sanitized text is valid UTF-8 if and only if no surrogate was read. */
  lemma SanitizeValidIff(s: seq<Octet>)
    requires Sanitize(s).Ok?
    ensures Valid(Sanitize(s).value) <==> forall cp :: cp in Read(s) ==> !Surrogate(cp)
  {
    CanonicalValidIff(s, Clean);
    CleanSurrogates(Read(s));
  }

  // Cleaning neither makes nor hides a surrogate.
  lemma {:induction false} CleanSurrogates(cps: seq<CodePoint>)
    ensures (exists x :: x in Map(Clean, cps) && Surrogate(x)) <==> (exists cp :: cp in cps && Surrogate(cp))
    decreases |cps|
  {
    if cps == [] {
    } else {
      CleanSurrogates(cps[1..]);
      var m, rest := Map(Clean, cps), Map(Clean, cps[1..]);
      assert forall x :: x in m <==> x == Clean(cps[0]) || x in rest;
      assert forall cp :: cp in cps <==> cp == cps[0] || cp in cps[1..];
      assert Surrogate(Clean(cps[0])) <==> Surrogate(cps[0]);
    }
  }

  /** A surrogate in three bytes is passed on, so the output need not be valid. */
  lemma SurrogatePasses()
    ensures Sanitize([0xED, 0xA0, 0x80]) == Ok([0xED, 0xA0, 0x80]) && !Valid([0xED, 0xA0, 0x80])
  {
    var s: seq<Octet> := [0xED, 0xA0, 0x80];
    assert ReadGroup(s) == Group(0xD800, 3) && s[3..] == [];
    assert Canonical(s[3..], Clean) == Ok([]) && Encode(0xD800) + [] == s;
  }

  /** Valid text is never refused, and stays valid. */
  lemma SanitizeKeepsValid(s: seq<Octet>)
    requires Valid(s)
    ensures Sanitize(s).Ok? && Valid(Sanitize(s).value)
  {
    ValidReads(s);
    ShortFormValidIff(s, Read(s));
    CanonicalSucceeds(s, Clean);
    SanitizeValidIff(s);
  }

  /** Sanitizing replaces each control code point but 9, 10 and 13 by a question mark, and nothing else. */
  lemma {:induction false} SanitizeReplaces(cps: seq<CodePoint>, i: nat)
    requires i < |cps|
    ensures |Map(Clean, cps)| == |cps|
    ensures Map(Clean, cps)[i] == if IsControl(cps[i]) then 0x3F else cps[i]
    decreases |cps|
  {
    if i == 0 {
      MapLength(Clean, cps);
    } else {
      SanitizeReplaces(cps[1..], i - 1);
    }
  }

  lemma {:induction false} MapLength(t: CodePoint -> CodePoint, cps: seq<CodePoint>)
    ensures |Map(t, cps)| == |cps|
    decreases |cps|
  {
    if cps == [] {
    } else {
      MapLength(t, cps[1..]);
    }
  }

  /** Every shortest form whose code points are clean passes through unchanged. */
  lemma SanitizeKeepsClean(cps: seq<CodePoint>, s: seq<Octet>)
    requires Decodes(s, cps) && forall x :: x in cps ==> !IsControl(x)
    ensures Sanitize(s) == Ok(s)
  {
    ValidUnchanged(s, cps, Clean);
  }
}
