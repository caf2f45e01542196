/**
 * The byte-signature scanner: a mask such as "48 8B ? 05" is parsed into
 * concrete bytes and wildcards and searched for in the executable sections
 * of a loaded module.
 *
 * Process memory is a byte sequence indexed by address. A module is given
 * by its base address (0 for a module that is not loaded) and its section
 * headers; the PE header walk that locates them is not modelled.
 */
module Scanner {
  import opened Wrappers
  import opened Machine

  type byte = x: nat | x < 256

  /** One element of `pattern`: a byte that must match, or a wildcard (`?`). */
  datatype PatternByte = Exact(value: byte) | Wildcard

  // ---- strtoul(p, nullptr, 16) ----

  /** isspace in the "C" locale. */
  predicate IsSpace(c: char)
  {
    c == ' ' || c == '\t' || c == '\n' || c == '\U{000B}' || c == '\U{000C}' || c == '\r'
  }

  function HexDigit(c: char): (r: Option<nat>)
    ensures r.Some? ==> r.value < 16
  {
    if '0' <= c <= '9' then Some(c as int - '0' as int)
    else if 'a' <= c <= 'f' then Some(c as int - 'a' as int + 10)
    else if 'A' <= c <= 'F' then Some(c as int - 'A' as int + 10)
    else None
  }

  /** The leading run of hex digits of `s`. */
  function HexRun(s: seq<char>): (r: seq<nat>)
    ensures |r| <= |s|
    ensures forall k :: 0 <= k < |r| ==> r[k] < 16
  {
    if s == [] || HexDigit(s[0]).None? then [] else [HexDigit(s[0]).value] + HexRun(s[1..])
  }

  /** The value of a digit string, most significant digit first. */
  function HexValue(ds: seq<nat>): nat
  {
    if ds == [] then 0 else HexValue(ds[..|ds| - 1]) * 16 + ds[|ds| - 1]
  }

  function SkipSpaces(s: seq<char>): (r: seq<char>)
    ensures |r| <= |s|
  {
    if s != [] && IsSpace(s[0]) then SkipSpaces(s[1..]) else s
  }

  /**
   * strtoul in base 16 on the text starting at `s`: leading white space is
   * skipped, the hex digits that follow are read, and a value above
   * ULONG_MAX (32 bits on Windows) saturates.
   */
  function StrToUL16(s: seq<char>): (r: nat)
    ensures r < U32
  {
    var v := HexValue(HexRun(SkipSpaces(s)));
    if v >= U32 then U32 - 1 else v
  }

  /** `static_cast<uint8_t>(strtoul(&mask[i], nullptr, 16))`. */
  function TokenByte(s: seq<char>): byte
  {
    StrToUL16(s) % 256
  }

  /**
   * The pattern the mask-parsing loop builds from the mask text: a `?`
   * gives a wildcard and skips two characters, anything else gives the byte
   * strtoul reads there and skips three.
   */
  function ParseMask(mask: seq<char>): seq<PatternByte>
    decreases |mask|
  {
    if mask == [] then []
    else if mask[0] != '?' then [Exact(TokenByte(mask))] + ParseMask(mask[if |mask| < 3 then |mask| else 3..])
    else [Wildcard] + ParseMask(mask[if |mask| < 2 then |mask| else 2..])
  }

  /** The suffix of the mask the loop still has to read once `i` has passed it or not. */
  function Rest(mask: seq<char>, i: nat): seq<char>
  {
    if i >= |mask| then [] else mask[i..]
  }

  /** One step of the parsing loop at index `i`. */
  lemma ParseStep(mask: seq<char>, i: nat)
    requires i < |mask|
    ensures mask[i] != '?' ==> ParseMask(Rest(mask, i)) == [Exact(TokenByte(mask[i..]))] + ParseMask(Rest(mask, i + 3))
    ensures mask[i] == '?' ==> ParseMask(Rest(mask, i)) == [Wildcard] + ParseMask(Rest(mask, i + 2))
  {
    var s := mask[i..];
    assert Rest(mask, i) == s;
    if |s| >= 3 {
      assert Rest(mask, i + 3) == s[3..];
    } else {
      assert Rest(mask, i + 3) == [] == s[|s|..];
    }
    if |s| >= 2 {
      assert Rest(mask, i + 2) == s[2..];
    } else {
      assert Rest(mask, i + 2) == [] == s[|s|..];
    }
  }

  /** The mask-parsing loop of FindPattern. */
  method BuildPattern(mask: seq<char>) returns (pattern: seq<PatternByte>)
    ensures pattern == ParseMask(mask)
  {
    pattern := [];
    var i := 0;
    assert Rest(mask, 0) == mask;
    while i < |mask|
      invariant pattern + ParseMask(Rest(mask, i)) == ParseMask(mask)
      decreases |mask| - i
    {
      ParseStep(mask, i);
      var next := if mask[i] != '?' then i + 3 else i + 2;
      var e := if mask[i] != '?' then Exact(TokenByte(mask[i..])) else Wildcard;
      assert ParseMask(Rest(mask, i)) == [e] + ParseMask(Rest(mask, next));
      assert pattern + [e] + ParseMask(Rest(mask, next)) == pattern + ([e] + ParseMask(Rest(mask, next)));
      pattern := pattern + [e];
      i := next;
    }
  }

  // ---- the canonical mask text and its round trip ----

  function HexChar(d: nat): char
    requires d < 16
  {
    if d < 10 then ('0' as int + d) as char else ('A' as int + d - 10) as char
  }

  /** The two-character upper-case spelling of a byte, or `?` for a wildcard. */
  function Token(p: PatternByte): seq<char>
  {
    match p
    case Wildcard => ['?']
    case Exact(b) => [HexChar(b / 16), HexChar(b % 16)]
  }

  /** The mask written in the usual form: tokens separated by single spaces. */
  function Render(p: seq<PatternByte>): seq<char>
  {
    if p == [] then []
    else if |p| == 1 then Token(p[0])
    else Token(p[0]) + [' '] + Render(p[1..])
  }

  lemma HexCharDigit(d: nat)
    requires d < 16
    ensures HexDigit(HexChar(d)) == Some(d)
  {
  }

  lemma HexPair(hi: nat, lo: nat)
    ensures HexValue([hi, lo]) == hi * 16 + lo
  {
    assert [hi][..0] == [];
    assert HexValue([hi]) == hi;
    assert [hi, lo][..1] == [hi];
  }

  lemma HexCharNotSpace(d: nat)
    requires d < 16
    ensures !IsSpace(HexChar(d))
  {
  }

  lemma HexRunPair(c0: char, c1: char, rest: seq<char>)
    requires HexDigit(c0).Some? && HexDigit(c1).Some?
    requires rest == [] || rest[0] == ' '
    ensures HexRun([c0, c1] + rest) == [HexDigit(c0).value, HexDigit(c1).value]
  {
    var s := [c0, c1] + rest;
    assert s[1..] == [c1] + rest;
    assert s[1..][1..] == rest;
    assert HexRun(rest) == [];
  }

  /** strtoul reads exactly the two digits of a spelled-out byte. */
  lemma TokenValue(b: byte, rest: seq<char>)
    requires rest == [] || rest[0] == ' '
    ensures TokenByte(Token(Exact(b)) + rest) == b
  {
    var hi, lo := b / 16, b % 16;
    var s := [HexChar(hi), HexChar(lo)] + rest;
    assert Token(Exact(b)) + rest == s;
    HexCharDigit(hi);
    HexCharDigit(lo);
    HexCharNotSpace(hi);
    assert SkipSpaces(s) == s;
    HexRunPair(HexChar(hi), HexChar(lo), rest);
    HexPair(hi, lo);
  }

  /**
   * A well-formed mask parses back to the pattern it spells: every byte
   * token yields that byte and advances three characters, every `?` yields
   * a wildcard and advances two.
   */
  lemma ParseTokenAlone(t: PatternByte)
    ensures ParseMask(Token(t)) == [t]
  {
    match t
    case Wildcard =>
    case Exact(b) =>
      TokenValue(b, []);
      assert Token(t) + [] == Token(t);
      assert Token(t)[2..] == [];
  }

  lemma ParseTokenThen(t: PatternByte, tail: seq<char>)
    ensures ParseMask(Token(t) + [' '] + tail) == [t] + ParseMask(tail)
  {
    var s := Token(t) + [' '] + tail;
    match t
    case Wildcard =>
      assert s[2..] == tail;
    case Exact(b) =>
      assert s == Token(t) + ([' '] + tail);
      TokenValue(b, [' '] + tail);
      assert s[3..] == tail;
  }

  /**
   * A well-formed mask parses back to the pattern it spells: every byte
   * token yields that byte and advances three characters, every `?` yields
   * a wildcard and advances two.
   */
  lemma {:induction false} ParseRender(p: seq<PatternByte>)
    ensures ParseMask(Render(p)) == p
  {
    if p == [] {
    } else if |p| == 1 {
      ParseTokenAlone(p[0]);
    } else {
      ParseRender(p[1..]);
      ParseTokenThen(p[0], Render(p[1..]));
    }
  }

  /** The example from the scanner's call sites. */
  lemma ExampleMask()
    ensures ParseMask("48 8B ? 05") == [Exact(0x48), Exact(0x8B), Wildcard, Exact(0x05)]
  {
    var p := [Exact(0x48), Exact(0x8B), Wildcard, Exact(0x05)];
    assert Render(p) == "48 8B ? 05" by {
      assert Token(Exact(0x48)) == "48";
      assert Token(Exact(0x8B)) == "8B";
      assert Token(Exact(0x05)) == "05";
      assert Render(p[3..]) == "05";
      assert Render(p[2..]) == "? 05";
      assert Render(p[1..]) == "8B ? 05";
    }
    ParseRender(p);
  }

  // ---- std::search ----

  /** The predicate std::search is given: a wildcard or an equal byte. */
  predicate ElementMatches(e: PatternByte, b: byte)
  {
    e.Wildcard? || e.value == b
  }

  predicate MatchAt(data: seq<byte>, o: nat, pattern: seq<PatternByte>)
  {
    o + |pattern| <= |data| && forall j :: 0 <= j < |pattern| ==> ElementMatches(pattern[j], data[o + j])
  }

  /** std::search from position `o` on: the first complete match, if any. */
  function FirstMatchFrom(data: seq<byte>, pattern: seq<PatternByte>, o: nat): (r: Option<nat>)
    ensures r.Some? ==> o <= r.value && MatchAt(data, r.value, pattern)
    ensures forall q: nat :: o <= q && (r.None? || q < r.value) ==> !MatchAt(data, q, pattern)
    decreases |data| - o
  {
    if o + |pattern| > |data| then None
    else if MatchAt(data, o, pattern) then Some(o)
    else FirstMatchFrom(data, pattern, o + 1)
  }

  /** std::search over the whole range: the lowest offset of a complete match. */
  function FirstMatch(data: seq<byte>, pattern: seq<PatternByte>): (r: Option<nat>)
    ensures r.Some? ==> MatchAt(data, r.value, pattern)
    ensures forall q: nat :: (r.None? || q < r.value) ==> !MatchAt(data, q, pattern)
  {
    FirstMatchFrom(data, pattern, 0)
  }

  /** The value FindPattern returns for a parsed pattern: NULL, or the match address. */
  function FindResult(mem: seq<byte>, start: nat, maxSize: nat, pattern: seq<PatternByte>): nat
    requires start + maxSize + 1 <= |mem|
  {
    match FirstMatch(mem[start..start + maxSize + 1], pattern)
    case None => 0
    case Some(o) => start + o
  }

  /**
   * FindPattern searches the maxSize + 1 bytes from `start` (one byte more
   * than `maxSize`) and returns the address of the first complete match, or
   * 0 when none fits.
   */
  method FindPattern(mem: seq<byte>, start: nat, maxSize: nat, mask: seq<char>) returns (r: nat)
    requires start + maxSize + 1 <= |mem|
    ensures r == FindResult(mem, start, maxSize, ParseMask(mask))
    ensures r != 0 ==> start <= r && r + |ParseMask(mask)| <= start + maxSize + 1 &&
                       MatchAt(mem[start..start + maxSize + 1], r - start, ParseMask(mask))
  {
    var pattern := BuildPattern(mask);
    var sig := FirstMatch(mem[start..start + maxSize + 1], pattern);
    if sig.None? {
      return 0;
    }
    return start + sig.value;
  }

  /** An empty mask matches at once: FindPattern returns `start`. */
  lemma EmptyMaskFindsStart(mem: seq<byte>, start: nat, maxSize: nat)
    requires start + maxSize + 1 <= |mem|
    ensures FindResult(mem, start, maxSize, ParseMask("")) == start
  {
  }

  // ---- sections ----

  /** The fields of IMAGE_SECTION_HEADER the scanner reads. */
  datatype SectionHeader = SectionHeader(virtualAddress: nat, virtualSize: nat, characteristics: bv32)

  datatype SectionRange = SectionRange(start: nat, end: nat)

  /** IMAGE_SCN_MEM_EXECUTE, section 3.1 ("Section Flags") of the PE/COFF specification. */
  const IMAGE_SCN_MEM_EXECUTE: bv32 := 0x2000_0000

  predicate Executable(h: SectionHeader)
  {
    h.characteristics & IMAGE_SCN_MEM_EXECUTE != 0
  }

  function RangeOf(base: nat, h: SectionHeader): SectionRange
  {
    SectionRange(base + h.virtualAddress, base + h.virtualAddress + h.virtualSize)
  }

  /** The executable sections of a module at `base`, in header order. */
  function ExecSections(base: nat, headers: seq<SectionHeader>): (r: seq<SectionRange>)
    ensures |r| <= |headers|
    ensures forall k :: 0 <= k < |r| ==> r[k].start <= r[k].end
  {
    if headers == [] then []
    else (if Executable(headers[0]) then [RangeOf(base, headers[0])] else []) + ExecSections(base, headers[1..])
  }

  lemma {:induction false} ExecSectionsExactly(base: nat, headers: seq<SectionHeader>, h: SectionHeader)
    ensures RangeOf(base, h) in ExecSections(base, headers) <==>
              exists k :: 0 <= k < |headers| && Executable(headers[k]) && RangeOf(base, headers[k]) == RangeOf(base, h)
  {
    if headers != [] {
      ExecSectionsExactly(base, headers[1..], h);
      if RangeOf(base, h) in ExecSections(base, headers[1..]) {
        var k :| 0 <= k < |headers[1..]| && Executable(headers[1..][k]) && RangeOf(base, headers[1..][k]) == RangeOf(base, h);
        assert headers[k + 1] == headers[1..][k];
      }
      forall k | 1 <= k < |headers| && Executable(headers[k]) && RangeOf(base, headers[k]) == RangeOf(base, h)
        ensures RangeOf(base, h) in ExecSections(base, headers[1..])
      {
        assert headers[1..][k - 1] == headers[k];
      }
    }
  }

  /** A section table with no executable section yields no ranges. */
  lemma NoExecutableNoRanges(base: nat, headers: seq<SectionHeader>)
    requires forall k :: 0 <= k < |headers| ==> !Executable(headers[k])
    ensures ExecSections(base, headers) == []
  {
    if headers != [] {
      NoExecutableNoRanges(base, headers[1..]);
    }
  }

  /** GetExecSections; `base` is the module handle, 0 when the module is not loaded. */
  method GetExecSections(base: nat, headers: seq<SectionHeader>) returns (secs: seq<SectionRange>)
    ensures base == 0 ==> secs == []
    ensures base != 0 ==> secs == ExecSections(base, headers)
  {
    secs := [];
    if base == 0 {
      return;
    }
    var i := 0;
    while i < |headers|
      invariant 0 <= i <= |headers|
      invariant secs + ExecSections(base, headers[i..]) == ExecSections(base, headers)
    {
      assert headers[i..][1..] == headers[i + 1..];
      if Executable(headers[i]) {
        secs := secs + [RangeOf(base, headers[i])];
      }
      i := i + 1;
    }
  }

  // ---- GetAddress ----

  /**
   * Which bytes GetAddress searches in a section: all of it when no start
   * address is given; from the start address when the section strictly
   * contains it; all of it when it starts after it; nothing otherwise
   * (in particular for a section starting exactly at the start address).
   */
  function SearchWindow(s: SectionRange, startAddress: nat): (w: Option<(nat, nat)>)
    requires s.start <= s.end
    ensures w.Some? ==> w.value.0 + w.value.1 == s.end
  {
    if startAddress == 0 then Some((s.start, s.end - s.start))
    else if s.start < startAddress && s.end > startAddress then Some((startAddress, s.end - startAddress))
    else if s.start > startAddress then Some((s.start, s.end - s.start))
    else None
  }

  ghost predicate Readable(mem: seq<byte>, sections: seq<SectionRange>)
  {
    forall k :: 0 <= k < |sections| ==> sections[k].start <= sections[k].end && sections[k].end + 1 <= |mem|
  }

  /**
   * The value the section loop leaves in `address`: None when no section
   * was searched (the variable is never assigned), otherwise the result of
   * the last search, which is the first nonzero one.
   */
  function ScanSections(mem: seq<byte>, sections: seq<SectionRange>, pattern: seq<PatternByte>,
                        startAddress: nat): (r: Option<nat>)
    requires Readable(mem, sections)
  {
    if sections == [] then None
    else
      var rest := ScanSections(mem, sections[1..], pattern, startAddress);
      match SearchWindow(sections[0], startAddress)
      case None => rest
      case Some(w) =>
        var a := FindResult(mem, w.0, w.1, pattern);
        if a != 0 then Some(a) else if rest.None? then Some(0) else rest
  }

  /** `a` is a complete match inside the window GetAddress searches in section `s`. */
  predicate FoundIn(mem: seq<byte>, s: SectionRange, startAddress: nat, pattern: seq<PatternByte>, a: nat)
    requires s.start <= s.end && s.end + 1 <= |mem|
  {
    SearchWindow(s, startAddress).Some? &&
    var w := SearchWindow(s, startAddress).value;
    w.0 <= a && MatchAt(mem[w.0..w.0 + w.1 + 1], a - w.0, pattern)
  }

  /** A nonzero scan result is a complete match inside one of the searched windows. */
  lemma {:induction false} ScanFindsMatch(mem: seq<byte>, sections: seq<SectionRange>, pattern: seq<PatternByte>,
                                          startAddress: nat)
    requires Readable(mem, sections)
    ensures var r := ScanSections(mem, sections, pattern, startAddress);
            r.Some? && r.value != 0 ==>
              exists k :: 0 <= k < |sections| && FoundIn(mem, sections[k], startAddress, pattern, r.value)
  {
    if sections != [] {
      var tail := sections[1..];
      assert Readable(mem, tail) by {
        forall j | 0 <= j < |tail|
          ensures tail[j].start <= tail[j].end && tail[j].end + 1 <= |mem|
        {
          assert tail[j] == sections[j + 1];
        }
      }
      ScanFindsMatch(mem, tail, pattern, startAddress);
      var r := ScanSections(mem, sections, pattern, startAddress);
      var rest := ScanSections(mem, tail, pattern, startAddress);
      var w := SearchWindow(sections[0], startAddress);
      if r.Some? && r.value != 0 {
        if w.Some? && FindResult(mem, w.value.0, w.value.1, pattern) != 0 {
          assert r.value == FindResult(mem, w.value.0, w.value.1, pattern);
          assert FoundIn(mem, sections[0], startAddress, pattern, r.value);
        } else {
          assert r == rest;
          var k :| 0 <= k < |tail| && FoundIn(mem, tail[k], startAddress, pattern, rest.value);
          assert tail[k] == sections[k + 1];
          assert FoundIn(mem, sections[k + 1], startAddress, pattern, r.value);
        }
      }
    }
  }

  /** FindPattern over a whole section, as the section loop calls it without a start address. */
  function SectionResult(mem: seq<byte>, s: SectionRange, pattern: seq<PatternByte>): nat
    requires s.start <= s.end && s.end + 1 <= |mem|
  {
    FindResult(mem, s.start, s.end - s.start, pattern)
  }

  /** One unfolding of ScanSections for a search from the start of every section. */
  lemma ScanStepFromStart(mem: seq<byte>, sections: seq<SectionRange>, pattern: seq<PatternByte>)
    requires Readable(mem, sections) && sections != []
    ensures Readable(mem, sections[1..])
    ensures var a0 := SectionResult(mem, sections[0], pattern);
            var rest := ScanSections(mem, sections[1..], pattern, 0);
            ScanSections(mem, sections, pattern, 0) == if a0 != 0 then Some(a0) else if rest.None? then Some(0) else rest
  {
    var tail := sections[1..];
    forall j | 0 <= j < |tail|
      ensures tail[j].start <= tail[j].end && tail[j].end + 1 <= |mem|
    {
      assert tail[j] == sections[j + 1];
    }
    assert SearchWindow(sections[0], 0) == Some((sections[0].start, sections[0].end - sections[0].start));
  }

  /** With no start address, GetAddress takes the first section that has a match. */
  lemma {:induction false} ScanFromStartTakesFirstHit(mem: seq<byte>, sections: seq<SectionRange>,
                                                      pattern: seq<PatternByte>, k: nat)
    requires Readable(mem, sections) && k < |sections|
    requires SectionResult(mem, sections[k], pattern) != 0
    requires forall j :: 0 <= j < k ==> SectionResult(mem, sections[j], pattern) == 0
    ensures ScanSections(mem, sections, pattern, 0) == Some(SectionResult(mem, sections[k], pattern))
  {
    ScanStepFromStart(mem, sections, pattern);
    if k > 0 {
      var tail := sections[1..];
      assert SectionResult(mem, sections[0], pattern) == 0;
      forall j | 0 <= j < k - 1
        ensures SectionResult(mem, tail[j], pattern) == 0
      {
        assert tail[j] == sections[j + 1];
      }
      assert tail[k - 1] == sections[k];
      ScanFromStartTakesFirstHit(mem, tail, pattern, k - 1);
    }
  }

  /**
   * GetAddress as written: `address` is not initialised, so when no
   * section is searched the function returns whatever `garbage` the
   * variable happened to hold, plus the offset.
   */
  function GetAddressAsWritten(mem: seq<byte>, sections: seq<SectionRange>, mask: seq<char>, offset: int,
                               startAddress: nat, loaded: bool, garbage: nat): nat
    requires Readable(mem, sections)
  {
    var address := match ScanSections(mem, sections, ParseMask(mask), startAddress)
                   case None => garbage
                   case Some(a) => a;
    if loaded && address != 0 then Wrap64(address + offset) else 0
  }

  /**
   * The uninitialised read is observable: a loaded module without
   * executable sections has no match, yet GetAddress returns nonzero.
   */
  lemma UninitialisedAddressEscapes()
    ensures GetAddressAsWritten([0], [], "48", 0, 0, true, 0x1000) == 0x1000
  {
  }

  /** GetAddress with `address` starting at NULL. */
  function AddressOf(mem: seq<byte>, sections: seq<SectionRange>, mask: seq<char>, offset: int,
                     startAddress: nat, loaded: bool): nat
    requires Readable(mem, sections)
  {
    var address := match ScanSections(mem, sections, ParseMask(mask), startAddress)
                   case None => 0
                   case Some(a) => a;
    if loaded && address != 0 then Wrap64(address + offset) else 0
  }

  /**
   * With `address` initialised, GetAddress returns nonzero only for a loaded
   * module and a match found in a searched window, and the result is that
   * match's address plus the offset.
   */
  lemma AddressIsMatch(mem: seq<byte>, sections: seq<SectionRange>, mask: seq<char>, offset: int,
                       startAddress: nat, loaded: bool)
    requires Readable(mem, sections)
    ensures var r := AddressOf(mem, sections, mask, offset, startAddress, loaded);
            var s := ScanSections(mem, sections, ParseMask(mask), startAddress);
            (r != 0 ==> loaded && s.Some? && s.value != 0 && r == Wrap64(s.value + offset)) &&
            (sections == [] ==> r == 0)
    ensures var s := ScanSections(mem, sections, ParseMask(mask), startAddress);
            s.Some? && s.value != 0 ==>
              exists k :: 0 <= k < |sections| && FoundIn(mem, sections[k], startAddress, ParseMask(mask), s.value)
  {
    var s := ScanSections(mem, sections, ParseMask(mask), startAddress);
    ScanFindsMatch(mem, sections, ParseMask(mask), startAddress);
    assert AddressOf(mem, sections, mask, offset, startAddress, loaded)
           == (if loaded && s.Some? && s.value != 0 then Wrap64(s.value + offset) else 0);
  }

  /** GetAddress; `loaded` is GetModuleHandleW's answer, `sections` GetExecSections'. */
  method GetAddress(mem: seq<byte>, sections: seq<SectionRange>, mask: seq<char>, offset: int,
                    startAddress: u64, loaded: bool) returns (r: nat)
    requires Readable(mem, sections)
    ensures r == AddressOf(mem, sections, mask, offset, startAddress, loaded)
  {
    var address := 0;
    var searched := false;
    var i := 0;
    while i < |sections|
      invariant 0 <= i <= |sections|
      invariant address == 0
      invariant !searched ==> ScanSections(mem, sections, ParseMask(mask), startAddress)
                              == ScanSections(mem, sections[i..], ParseMask(mask), startAddress)
      invariant searched ==> (var rest := ScanSections(mem, sections[i..], ParseMask(mask), startAddress);
                              ScanSections(mem, sections, ParseMask(mask), startAddress)
                              == (if rest.None? then Some(0) else rest))
    {
      assert sections[i..][1..] == sections[i + 1..];
      var w := SearchWindow(sections[i], startAddress);
      if w.Some? {
        address := FindPattern(mem, w.value.0, w.value.1, mask);
        searched := true;
        if address != 0 {
          break;
        }
      }
      i := i + 1;
    }
    if loaded && address != 0 {
      r := Wrap64(address + offset);
    } else {
      r := 0;
    }
  }

  // ---- GetOffsetFromInstruction ----

  /** The little-endian int32_t stored at `a`. */
  function LoadInt32(mem: seq<byte>, a: nat): (d: int)
    requires a + 4 <= |mem|
    ensures -0x8000_0000 <= d < 0x8000_0000
  {
    var u := mem[a] as nat + 0x100 * mem[a + 1] as nat + 0x1_0000 * mem[a + 2] as nat
             + 0x100_0000 * mem[a + 3] as nat;
    if u >= 0x8000_0000 then u - 0x1_0000_0000 else u
  }

  /**
   * GetOffsetFromInstruction: find the pattern in the module image and
   * resolve the rip-relative displacement stored `offset` bytes into the
   * match: the result is `address + offset + 4 + d` (modulo 2^64).
   */
  method GetOffsetFromInstruction(mem: seq<byte>, moduleBase: nat, moduleEnd: nat, loaded: bool,
                                  mask: seq<char>, offset: int) returns (r: nat)
    requires moduleBase <= moduleEnd && moduleEnd + 1 <= |mem|
    requires moduleBase + offset >= 0 && moduleEnd + 1 + offset + 4 <= |mem|
    ensures var a := FindResult(mem, moduleBase, moduleEnd - moduleBase, ParseMask(mask));
            if loaded && a != 0 then
              a + offset + 4 <= |mem| && r == Wrap64(a + offset + 4 + LoadInt32(mem, a + offset))
            else r == 0
  {
    var address := FindPattern(mem, moduleBase, moduleEnd - moduleBase, mask);
    if loaded && address != 0 {
      assert moduleBase <= address <= moduleEnd;
      var at: nat := address + offset;
      var d := LoadInt32(mem, at);
      var reloffset := Wrap64(d + 4);
      r := Wrap64(at + reloffset);
      WrapAdd(at, d + 4);
    } else {
      r := 0;
    }
  }

  lemma WrapAdd(a: nat, b: int)
    ensures Wrap64(a + Wrap64(b)) == Wrap64(a + b)
  {
    var q := b / U64;
    assert Wrap64(b) == b - q * U64;
    assert a + Wrap64(b) == (a + b) - q * U64;
  }
}
