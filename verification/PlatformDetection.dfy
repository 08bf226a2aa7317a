/** Naming the platform of an executable from its first bytes
    (crates/agent/src/cmd/upgrade.rs). Offsets: ELF Header chapter of the System V
    gABI; COFF File Header section of the Microsoft PE Format specification. */
module PlatformDetection {
  import opened Wrappers
  import opened ByteStrings

  // ---------- integers in byte strings ----------

  function Le16(b: Bytes, at: nat): nat
    requires at + 2 <= |b|
  {
    b[at] as nat + 0x100 * b[at + 1] as nat
  }

  function Word16(b: Bytes, at: nat, big: bool): nat
    requires at + 2 <= |b|
  {
    if big then b[at + 1] as nat + 0x100 * b[at] as nat else Le16(b, at)
  }

  function Word32(b: Bytes, at: nat, big: bool): nat
    requires at + 4 <= |b|
  {
    if big then Word16(b, at + 2, true) + 0x1_0000 * Word16(b, at, true)
    else Word16(b, at, false) + 0x1_0000 * Word16(b, at + 2, false)
  }

  function Put16(n: nat, big: bool): (b: Bytes)
    requires n < 0x1_0000
    ensures |b| == 2 && Word16(b, 0, big) == n
  {
    if big then [(n / 0x100) as byte, (n % 0x100) as byte] else [(n % 0x100) as byte, (n / 0x100) as byte]
  }

  function Put32(n: nat, big: bool): (b: Bytes)
    requires n < 0x1_0000_0000
    ensures |b| == 4 && Word32(b, 0, big) == n
  {
    var hi, lo := Put16(n / 0x1_0000, big), Put16(n % 0x1_0000, big);
    if big then hi + lo else lo + hi
  }

  lemma Word32Shift(b: Bytes, at: nat, part: Bytes, big: bool)
    requires at + 4 <= |b| && |part| == 4 && b[at..at + 4] == part
    ensures Word32(b, at, big) == Word32(part, 0, big)
  {
    assert part[0] == b[at] && part[1] == b[at + 1] && part[2] == b[at + 2] && part[3] == b[at + 3];
  }

  // ---------- the detectors ----------

  const ELF_MAGIC: Bytes := [0x7F, 0x45, 0x4C, 0x46]
  const MZ: Bytes := [0x4D, 0x5A]
  const PE_SIGNATURE: Bytes := [0x50, 0x45, 0, 0]

  /** Mach-O magics as they appear in a big-endian file. */
  const THIN32: Bytes := [0xFE, 0xED, 0xFA, 0xCE]
  const THIN64: Bytes := [0xFE, 0xED, 0xFA, 0xCF]
  const FAT: Bytes := [0xCA, 0xFE, 0xBA, 0xBE]
  const FAT64: Bytes := [0xCA, 0xFE, 0xBA, 0xBF]

  function Swapped(m: Bytes): Bytes
    requires |m| == 4
  {
    [m[3], m[2], m[1], m[0]]
  }

  datatype BinaryOs = Linux | MacOs | Windows

  function DetectOs(bin: Bytes): Option<BinaryOs> {
    if |bin| < 4 then None
    else
      var m4 := bin[..4];
      if m4 == ELF_MAGIC then Some(Linux)
      else if m4 == [0x4D, 0x5A, 0x90, 0x00] || bin[..2] == MZ then Some(Windows)
      else if m4 == THIN32 || m4 == THIN64 || m4 == Swapped(THIN32) || m4 == Swapped(THIN64)
              || m4 == FAT || m4 == Swapped(FAT) then Some(MacOs)
      else None
  }

  function ElfMachine(em: nat): Option<string> {
    if em == 62 then Some("x86_64")
    else if em == 183 then Some("aarch64")
    else if em == 3 then Some("x86")
    else if em == 40 then Some("arm")
    else if em == 243 then Some("riscv64")
    else None
  }

  function DetectElfArch(bin: Bytes): Option<string> {
    if |bin| < 20 || bin[..4] != ELF_MAGIC then None
    else ElfMachine(Word16(bin, 18, bin[5] != 1))
  }

  function PeMachine(m: nat): Option<string> {
    if m == 0x8664 then Some("x86_64")
    else if m == 0x014c then Some("x86")
    else if m == 0xAA64 then Some("aarch64")
    else if m == 0x01c0 then Some("arm")
    else None
  }

  function DetectPeArch(bin: Bytes): Option<string> {
    if |bin| < 0x40 || bin[..2] != MZ then None
    else
      var off := Word32(bin, 0x3C, false);
      if |bin| < off + 6 || bin[off..off + 4] != PE_SIGNATURE then None
      else PeMachine(Le16(bin, off + 4))
  }

  /** The low 24 bits name the family, bit 24 the 64-bit variant; the rest is ignored. */
  function CpuToArch(cputype: nat): Option<string> {
    var family, is64 := cputype % 0x100_0000, cputype / 0x100_0000 % 2 == 1;
    if family == 7 then Some(if is64 then "x86_64" else "x86")
    else if family == 12 then Some(if is64 then "aarch64" else "arm")
    else None
  }

  function Recognised(cputype: nat): seq<string> {
    if CpuToArch(cputype).Some? then [CpuToArch(cputype).value] else []
  }

  predicate IsFat(m4: Bytes)
    requires |m4| == 4
  {
    m4 == FAT || m4 == Swapped(FAT) || m4 == FAT64 || m4 == Swapped(FAT64)
  }

  predicate IsThin(m4: Bytes)
    requires |m4| == 4
  {
    m4 == THIN32 || m4 == THIN64 || m4 == Swapped(THIN32) || m4 == Swapped(THIN64)
  }

  function RecordSize(m4: Bytes): nat
    requires |m4| == 4
  {
    if m4 == FAT64 || m4 == Swapped(FAT64) then 32 else 20
  }

  /** The cputypes of the records of `size` bytes from `off` on: as many as are
      claimed, up to the first that does not fit. */
  function CpuTypes(bin: Bytes, big: bool, size: nat, off: nat, claimed: nat): seq<nat>
    requires size >= 4
    decreases claimed
  {
    if claimed == 0 || |bin| < off + size then []
    else [Word32(bin, off, big)] + CpuTypes(bin, big, size, off + size, claimed - 1)
  }

  function RecognisedAll(cputypes: seq<nat>): seq<string> {
    if cputypes == [] then [] else Recognised(cputypes[0]) + RecognisedAll(cputypes[1..])
  }

  function MachoArches(bin: Bytes): Option<seq<string>> {
    if |bin| < 8 then None
    else
      var m4 := bin[..4];
      if IsFat(m4) then
        var big, size := m4 == FAT || m4 == FAT64, RecordSize(m4);
        if |bin| < 12 then None
        else
          var arches := RecognisedAll(CpuTypes(bin, big, size, 8, Word32(bin, 4, big)));
          if arches == [] then None else Some(arches)
      else if IsThin(m4) then
        var arch := CpuToArch(Word32(bin, 4, m4 == THIN32 || m4 == THIN64));
        if arch.Some? then Some([arch.value]) else None
      else None
  }

  lemma AppendRecognised(arches: seq<string>, cputype: nat, rest: seq<nat>)
    ensures arches + RecognisedAll([cputype] + rest)
            == (if CpuToArch(cputype).Some? then arches + [CpuToArch(cputype).value] else arches) + RecognisedAll(rest)
  {
    assert ([cputype] + rest)[1..] == rest;
  }

  method ReadRecords(bin: Bytes, big: bool, size: nat, nfat: nat) returns (arches: seq<string>)
    requires size >= 4
    ensures arches == RecognisedAll(CpuTypes(bin, big, size, 8, nfat))
  {
    arches := [];
    var off := 8;
    var i := 0;
    while i < nfat
      invariant i <= nfat
      invariant arches + RecognisedAll(CpuTypes(bin, big, size, off, nfat - i))
                == RecognisedAll(CpuTypes(bin, big, size, 8, nfat))
    {
      if |bin| < off + size {
        break;
      }
      var cputype := Word32(bin, off, big);
      ghost var rest := CpuTypes(bin, big, size, off + size, nfat - i - 1);
      assert CpuTypes(bin, big, size, off, nfat - i) == [cputype] + rest;
      AppendRecognised(arches, cputype, rest);
      var arch := CpuToArch(cputype);
      if arch.Some? {
        arches := arches + [arch.value];
      }
      off := off + size;
      i := i + 1;
    }
  }

  /** The record loop: it stops at the claimed count or at the first record that
      does not fit, and its reads stay inside the file. */
  method DetectMachoArches(bin: Bytes) returns (found: Option<seq<string>>)
    ensures found == MachoArches(bin)
  {
    if |bin| < 8 {
      return None;
    }
    var m4 := bin[..4];
    if IsFat(m4) {
      var big := m4 == FAT || m4 == FAT64;
      if |bin| < 12 {
        return None;
      }
      var nfat := Word32(bin, 4, big);
      var arches := ReadRecords(bin, big, RecordSize(m4), nfat);
      found := if arches == [] then None else Some(arches);
    } else if IsThin(m4) {
      var cputype := Word32(bin, 4, m4 == THIN32 || m4 == THIN64);
      var arch := CpuToArch(cputype);
      found := if arch.Some? then Some([arch.value]) else None;
    } else {
      found := None;
    }
  }

  lemma RegroupFour(a: seq<string>, b: seq<string>, c: seq<string>, d: seq<string>)
    ensures a + (b + c + d) == (a + b) + c + d
  {
  }

  /** A record contributes its architecture, if it is recognised, whatever stands
      before and behind it. */
  lemma {:induction false} RecognisedParts(before: seq<nat>, cputype: nat, after: seq<nat>)
    ensures RecognisedAll(before + [cputype] + after)
            == RecognisedAll(before) + (if CpuToArch(cputype).Some? then [CpuToArch(cputype).value] else []) + RecognisedAll(after)
  {
    var all := before + [cputype] + after;
    if before == [] {
      assert all[1..] == after && all[0] == cputype;
    } else {
      RecognisedParts(before[1..], cputype, after);
      assert all[1..] == before[1..] + [cputype] + after && all[0] == before[0];
      RegroupFour(Recognised(before[0]), RecognisedAll(before[1..]),
                  if CpuToArch(cputype).Some? then [CpuToArch(cputype).value] else [], RecognisedAll(after));
    }
  }

  /** Without any recognised architecture there is no answer at all. */
  lemma NeverEmpty(bin: Bytes)
    ensures MachoArches(bin) != Some([])
  {
  }

  ghost predicate RecordAt(bin: Bytes, big: bool, size: nat, off: nat, i: nat, cputype: nat) {
    var at := off + if size == 20 then 20 * i else 32 * i;
    at + 4 <= |bin| && cputype == Word32(bin, at, big)
  }

  /** How many records of that size fit behind an offset. */
  function Fit(len: nat, off: nat, size: nat): nat
    requires off <= len && (size == 20 || size == 32)
  {
    if size == 20 then (len - off) / 20 else (len - off) / 32
  }

  lemma {:induction false} CountExamined(bin: Bytes, big: bool, size: nat, off: nat, claimed: nat)
    requires (size == 20 || size == 32) && off <= |bin|
    ensures |CpuTypes(bin, big, size, off, claimed)| == if claimed <= Fit(|bin|, off, size) then claimed else Fit(|bin|, off, size)
    decreases claimed
  {
    if claimed > 0 && |bin| >= off + size {
      CountExamined(bin, big, size, off + size, claimed - 1);
      assert Fit(|bin|, off, size) == Fit(|bin|, off + size, size) + 1;
    }
  }

  lemma {:induction false} PlacesExamined(bin: Bytes, big: bool, size: nat, off: nat, claimed: nat, i: nat)
    requires (size == 20 || size == 32) && i < |CpuTypes(bin, big, size, off, claimed)|
    ensures RecordAt(bin, big, size, off, i, CpuTypes(bin, big, size, off, claimed)[i])
    decreases claimed
  {
    if i > 0 {
      PlacesExamined(bin, big, size, off + size, claimed - 1, i - 1);
    }
  }

  /** The loop examines exactly min(claimed, (len - off) / size) records, the i-th
      at off + i * size. */
  lemma RecordsExamined(bin: Bytes, big: bool, size: nat, off: nat, claimed: nat)
    requires (size == 20 || size == 32) && off <= |bin|
    ensures var c, fit := CpuTypes(bin, big, size, off, claimed), Fit(|bin|, off, size);
            && |c| == (if claimed <= fit then claimed else fit)
            && forall i :: 0 <= i < |c| ==> RecordAt(bin, big, size, off, i, c[i])
  {
    CountExamined(bin, big, size, off, claimed);
    var c := CpuTypes(bin, big, size, off, claimed);
    forall i | 0 <= i < |c|
      ensures RecordAt(bin, big, size, off, i, c[i])
    {
      PlacesExamined(bin, big, size, off, claimed, i);
    }
  }

  function Platform(bin: Bytes): Option<string> {
    match DetectOs(bin)
    case None => None
    case Some(Linux) =>
      var arch := DetectElfArch(bin);
      if arch.Some? then Some("linux/" + arch.value) else None
    case Some(MacOs) =>
      var arches := MachoArches(bin);
      if arches.Some? && |arches.value| == 1 then Some("macos/" + arches.value[0]) else None
    case Some(Windows) =>
      var arch := DetectPeArch(bin);
      if arch.Some? then Some("windows/" + arch.value) else None
  }

  method DetectBinaryPlatform(bin: Bytes) returns (platform: Option<string>)
    ensures platform == Platform(bin)
  {
    var os := DetectOs(bin);
    if os.None? {
      return None;
    }
    match os.value {
      case Linux =>
        var arch := DetectElfArch(bin);
        platform := if arch.Some? then Some("linux/" + arch.value) else None;
      case MacOs =>
        var arches := DetectMachoArches(bin);
        platform := if arches.Some? && |arches.value| == 1 then Some("macos/" + arches.value[0]) else None;
      case Windows =>
        var arch := DetectPeArch(bin);
        platform := if arch.Some? then Some("windows/" + arch.value) else None;
    }
  }

  // ---------- writing headers ----------

  datatype Arch = X86 | X86_64 | Arm | Aarch64

  function ArchName(a: Arch): string {
    match a
    case X86 => "x86"
    case X86_64 => "x86_64"
    case Arm => "arm"
    case Aarch64 => "aarch64"
  }

  /** The Mach-O cputype; `capability` are the bits above the 64-bit flag. */
  function CpuType(a: Arch, capability: nat): (n: nat)
    requires capability < 0x80
    ensures n < 0x1_0000_0000 && CpuToArch(n) == Some(ArchName(a))
  {
    capability * 0x200_0000 +
    match a
    case X86 => 7
    case X86_64 => 0x100_0007
    case Arm => 12
    case Aarch64 => 0x100_000C
  }

  /** No other cputype is recognised. */
  lemma CpuTypesKnown(n: nat)
    requires n < 0x1_0000_0000
    ensures CpuToArch(n).Some? <==> exists a, capability: nat :: capability < 0x80 && n == CpuType(a, capability)
  {
    if CpuToArch(n).Some? {
      var family, is64, capability := n % 0x100_0000, n / 0x100_0000 % 2 == 1, n / 0x200_0000;
      var a := if family == 7 then (if is64 then X86_64 else X86) else (if is64 then Aarch64 else Arm);
      assert n == CpuType(a, capability);
    }
  }

  /** One fat_arch or fat_arch_64 record: the cputype and the rest. */
  datatype FatRecord = FatRecord(arch: Arch, capability: nat, rest: Bytes)

  ghost predicate ValidRecords(records: seq<FatRecord>, size: nat) {
    forall i :: 0 <= i < |records| ==> records[i].capability < 0x80 && |records[i].rest| + 4 == size
  }

  function EncodeRecord(r: FatRecord, big: bool): (b: Bytes)
    requires r.capability < 0x80
    ensures |b| == 4 + |r.rest| && Word32(b, 0, big) == CpuType(r.arch, r.capability)
  {
    var b := Put32(CpuType(r.arch, r.capability), big) + r.rest;
    Word32Shift(b, 0, b[..4], big);
    b
  }

  function EncodeEach(records: seq<FatRecord>, big: bool, ghost size: nat): (chunks: seq<Bytes>)
    requires ValidRecords(records, size)
    ensures |chunks| == |records|
    ensures forall i :: 0 <= i < |chunks| ==> |chunks[i]| == size && chunks[i] == EncodeRecord(records[i], big)
  {
    seq(|records|, i requires 0 <= i < |records| => EncodeRecord(records[i], big))
  }

  function Concat(chunks: seq<Bytes>): Bytes {
    if chunks == [] then [] else chunks[0] + Concat(chunks[1..])
  }

  function FatMagic(big: bool, wide: bool): (m: Bytes)
    ensures |m| == 4
  {
    if big then [0xCA, 0xFE, 0xBA, if wide then 0xBF else 0xBE] else [if wide then 0xBF else 0xBE, 0xBA, 0xFE, 0xCA]
  }

  function ArchNames(records: seq<FatRecord>): (names: seq<string>)
    ensures |names| == |records|
  {
    seq(|records|, i requires 0 <= i < |records| => ArchName(records[i].arch))
  }

  /** The record loop reads the first word of each of the records written. */
  lemma {:induction false} ReadsEachChunk(bin: Bytes, before: Bytes, chunks: seq<Bytes>, big: bool, size: nat, tail: Bytes)
    requires size >= 4 && forall i :: 0 <= i < |chunks| ==> |chunks[i]| == size
    requires bin == before + Concat(chunks) + tail
    ensures CpuTypes(bin, big, size, |before|, |chunks|)
            == seq(|chunks|, i requires 0 <= i < |chunks| => Word32(chunks[i], 0, big))
    decreases |chunks|
  {
    if chunks != [] {
      var first, rest := chunks[0], Concat(chunks[1..]);
      assert bin == (before + first) + rest + tail;
      assert bin[|before|..|before| + 4] == first[..4];
      Word32Shift(bin, |before|, first[..4], big);
      Word32Shift(first, 0, first[..4], big);
      ReadsEachChunk(bin, before + first, chunks[1..], big, size, tail);
      assert CpuTypes(bin, big, size, |before|, |chunks|)
          == [Word32(first, 0, big)] + CpuTypes(bin, big, size, |before + first|, |chunks| - 1);
    }
  }

  lemma {:induction false} RecognisedNames(cputypes: seq<nat>, records: seq<FatRecord>)
    requires |cputypes| == |records|
    requires forall i :: 0 <= i < |records| ==> CpuToArch(cputypes[i]) == Some(ArchName(records[i].arch))
    ensures RecognisedAll(cputypes) == ArchNames(records)
  {
    if records != [] {
      RecognisedNames(cputypes[1..], records[1..]);
      assert ArchNames(records) == [ArchName(records[0].arch)] + ArchNames(records[1..]);
    }
  }

  lemma FatMagicRead(big: bool, wide: bool)
    ensures var m := FatMagic(big, wide);
            IsFat(m) && RecordSize(m) == (if wide then 32 else 20) && (big <==> m == FAT || m == FAT64)
  {
    assert FAT[3] == 0xBE && FAT64[3] == 0xBF && FAT[0] == 0xCA && FAT64[0] == 0xCA;
    assert FatMagic(big, wide)[3] != FatMagic(big, !wide)[3] || FatMagic(big, wide)[0] != FatMagic(big, !wide)[0];
  }

  /** A fat header listing any architectures, of either record width and in either
      byte order, is read back as exactly that list, whatever follows it. */
  lemma FatRoundTrip(records: seq<FatRecord>, big: bool, wide: bool, tail: Bytes)
    requires 0 < |records| < 0x1_0000_0000 && ValidRecords(records, if wide then 32 else 20)
    ensures var size := if wide then 32 else 20;
            MachoArches(FatMagic(big, wide) + Put32(|records|, big) + Concat(EncodeEach(records, big, size)) + tail)
            == Some(ArchNames(records))
  {
    var size := if wide then 32 else 20;
    var m, count, chunks := FatMagic(big, wide), Put32(|records|, big), EncodeEach(records, big, size);
    var bin := m + count + Concat(chunks) + tail;
    assert bin == (m + count) + Concat(chunks) + tail;
    assert |Concat(chunks)| >= |chunks[0]|;
    assert bin[..4] == m && bin[4..8] == count;
    Word32Shift(bin, 4, count, big);
    FatMagicRead(big, wide);
    ReadsEachChunk(bin, m + count, chunks, big, size, tail);
    RecognisedNames(CpuTypes(bin, big, size, 8, |records|), records);
  }

  function ThinMagic(big: bool, sixtyFour: bool): (m: Bytes)
    ensures |m| == 4
  {
    if big then [0xFE, 0xED, 0xFA, if sixtyFour then 0xCF else 0xCE] else [if sixtyFour then 0xCF else 0xCE, 0xFA, 0xED, 0xFE]
  }

  /** A thin header likewise. */
  lemma ThinRoundTrip(arch: Arch, capability: nat, big: bool, sixtyFour: bool, tail: Bytes)
    requires capability < 0x80
    ensures var bin := ThinMagic(big, sixtyFour) + Put32(CpuType(arch, capability), big) + tail;
            MachoArches(bin) == Some([ArchName(arch)]) && Platform(bin) == Some("macos/" + ArchName(arch))
  {
    var m, word := ThinMagic(big, sixtyFour), Put32(CpuType(arch, capability), big);
    var bin := m + word + tail;
    assert bin[..4] == m && bin[4..8] == word;
    Word32Shift(bin, 4, word, big);
    assert m[0] == bin[0] && m[1] == bin[1] && m[2] == bin[2] && m[3] == bin[3];
    assert bin[..2] == [m[0], m[1]];
    assert !IsFat(m) && IsThin(m) && (big <==> m == THIN32 || m == THIN64);
  }

  /** The two detectors know the same Mach-O magics, but for the 64-bit fat one. */
  lemma MachoIsMacos(bin: Bytes)
    ensures MachoArches(bin).Some? ==>
              (DetectOs(bin) == Some(MacOs) <==> bin[..4] != FAT64 && bin[..4] != Swapped(FAT64))
  {
    if |bin| >= 8 {
      var m4 := bin[..4];
      assert m4[0] == bin[0] && m4[1] == bin[1] && m4[2] == bin[2] && m4[3] == bin[3];
      assert bin[..2] == [m4[0], m4[1]];
    }
  }

  /** Of a file in which the architecture detector recognises exactly one
      architecture, the platform is named if and only if the file does not start
      with the 64-bit fat magic, which the OS detector does not know. A macOS target
      is named for such files only. */
  lemma MacosNamedIff(bin: Bytes, arch: string)
    ensures MachoArches(bin) == Some([arch]) ==>
              (Platform(bin) == Some("macos/" + arch) <==> bin[..4] != FAT64 && bin[..4] != Swapped(FAT64))
    ensures Platform(bin) == Some("macos/" + arch) ==> MachoArches(bin) == Some([arch])
    ensures |bin| >= 4 && (bin[..4] == FAT64 || bin[..4] == Swapped(FAT64)) ==> Platform(bin) == None
  {
    MachoIsMacos(bin);
    var named := "macos/" + arch;
    assert named[0] == 'm';
    match DetectOs(bin) {
      case Some(Linux) =>
        var a := DetectElfArch(bin);
        assert a.Some? ==> ("linux/" + a.value)[0] == 'l';
      case Some(Windows) =>
        var a := DetectPeArch(bin);
        assert a.Some? ==> ("windows/" + a.value)[0] == 'w';
      case Some(MacOs) =>
        var arches := MachoArches(bin);
        if arches.Some? && |arches.value| == 1 {
          var got := "macos/" + arches.value[0];
          assert got[6..] == arches.value[0] && named[6..] == arch;
          assert arches.value == [arches.value[0]];
        }
      case None =>
    }
    if |bin| >= 4 && (bin[..4] == FAT64 || bin[..4] == Swapped(FAT64)) {
      assert bin[..4][3] == bin[3] && bin[..4][0] == bin[0] && bin[..2][0] == bin[0];
    }
  }

  datatype ElfArch = Common(arch: Arch) | Riscv64

  function ElfName(a: ElfArch): string {
    if a.Riscv64? then "riscv64" else ArchName(a.arch)
  }

  /** The values of e_machine. */
  function ElfCode(a: ElfArch): (n: nat)
    ensures n < 0x1_0000
  {
    match a
    case Common(X86) => 3
    case Common(Arm) => 40
    case Common(X86_64) => 62
    case Common(Aarch64) => 183
    case Riscv64 => 243
  }

  /** The front of an ELF file: the data byte is 1 for little-endian, and anything
      else is read as big-endian. */
  function ElfHeader(bits: byte, data: byte, ident: Bytes, machine: nat): (b: Bytes)
    requires |ident| == 12 && machine < 0x1_0000
    ensures |b| == 20
  {
    [0x7F, 0x45, 0x4C, 0x46, bits, data] + ident + Put16(machine, data != 1)
  }

  lemma ElfHeaderRead(bits: byte, data: byte, ident: Bytes, machine: nat, tail: Bytes)
    requires |ident| == 12 && machine < 0x1_0000
    ensures var named := ElfMachine(machine);
            Platform(ElfHeader(bits, data, ident, machine) + tail)
            == if named.Some? then Some("linux/" + named.value) else None
  {
    var word := Put16(machine, data != 1);
    var bin := ElfHeader(bits, data, ident, machine) + tail;
    assert bin[..4] == ELF_MAGIC;
    assert bin[5] == data && bin[18] == word[0] && bin[19] == word[1];
  }

  /** An ELF header, with any identification bytes and in either byte order, is named
      after its machine, and not named if its machine is unknown. */
  lemma ElfRoundTrip(bits: byte, data: byte, ident: Bytes, arch: ElfArch, other: nat, tail: Bytes)
    requires |ident| == 12
    ensures Platform(ElfHeader(bits, data, ident, ElfCode(arch)) + tail) == Some("linux/" + ElfName(arch))
    ensures other < 0x1_0000 && (forall a :: ElfCode(a) != other) ==>
              Platform(ElfHeader(bits, data, ident, other) + tail) == None
  {
    ElfHeaderRead(bits, data, ident, ElfCode(arch), tail);
    if other < 0x1_0000 && forall a :: ElfCode(a) != other {
      assert ElfCode(Common(X86)) != other && ElfCode(Common(Arm)) != other && ElfCode(Common(X86_64)) != other;
      assert ElfCode(Common(Aarch64)) != other && ElfCode(Riscv64) != other;
      ElfHeaderRead(bits, data, ident, other, tail);
    }
  }

  /** `image` with some bytes written over it. */
  function Written(image: Bytes, at: nat, part: Bytes): (b: Bytes)
    requires at + |part| <= |image|
    ensures |b| == |image| && b[at..at + |part|] == part
    ensures forall i :: 0 <= i < |image| && !(at <= i < at + |part|) ==> b[i] == image[i]
    ensures forall i :: 0 <= i < |part| ==> b[at + i] == part[i]
  {
    image[..at] + part + image[at + |part|..]
  }

  /** The places for a PE header that overlaps neither the first two bytes nor the
      word at 0x3C that gives its offset. */
  predicate HeaderPlace(off: nat) {
    2 <= off < 0x1_0000_0000 && (off + 6 <= 0x3C || 0x40 <= off)
  }

  /** The machine numbers of the COFF file header. */
  function PeCode(a: Arch): (n: nat)
    ensures n < 0x1_0000
  {
    match a
    case X86 => 0x014C
    case X86_64 => 0x8664
    case Arm => 0x01C0
    case Aarch64 => 0xAA64
  }

  /** Any image, with MZ in front, an offset at 0x3C, and signature and machine
      at that offset, wherever that keeps them apart. */
  function PeImage(image: Bytes, off: nat, machine: nat): (b: Bytes)
    requires HeaderPlace(off) && machine < 0x1_0000 && 0x40 <= |image| && off + 6 <= |image|
    ensures |b| == |image|
  {
    Written(Written(Written(image, 0, [0x4D, 0x5A]), 0x3C, Put32(off, false)), off, [0x50, 0x45, 0, 0] + Put16(machine, false))
  }

  lemma PeImageBytes(image: Bytes, off: nat, machine: nat)
    requires HeaderPlace(off) && 0x40 <= |image| && off + 6 <= |image| && machine < 0x1_0000
    ensures var bin := PeImage(image, off, machine);
            && bin[0] == 0x4D && bin[1] == 0x5A && bin[0x3C..0x40] == Put32(off, false)
            && bin[off..off + 4] == [0x50, 0x45, 0, 0] && bin[off + 4..off + 6] == Put16(machine, false)
  {
    var word, header := Put32(off, false), [0x50, 0x45, 0, 0] + Put16(machine, false);
    var two := Written(Written(image, 0, [0x4D, 0x5A]), 0x3C, word);
    var bin := PeImage(image, off, machine);
    assert two[0x3C..0x40] == word;
    assert bin[0x3C..0x40] == two[0x3C..0x40];
    assert bin[off..off + 6] == header;
    assert bin[off..off + 4] == header[..4] && bin[off + 4..off + 6] == header[4..];
  }

  lemma PeBytesRead(bin: Bytes, off: nat, machine: nat)
    requires off < 0x1_0000_0000 && machine < 0x1_0000 && 0x40 <= |bin| && off + 6 <= |bin|
    requires bin[0] == 0x4D && bin[1] == 0x5A && bin[0x3C..0x40] == Put32(off, false)
    requires bin[off..off + 4] == [0x50, 0x45, 0, 0] && bin[off + 4..off + 6] == Put16(machine, false)
    ensures DetectOs(bin) == Some(Windows) && DetectPeArch(bin) == PeMachine(machine)
  {
    var m := Put16(machine, false);
    assert bin[..2] == MZ && bin[..4][0] == 0x4D;
    assert DetectOs(bin) == Some(Windows);
    Word32Shift(bin, 0x3C, Put32(off, false), false);
    assert bin[off + 4] == bin[off + 4..off + 6][0] && bin[off + 5] == bin[off + 4..off + 6][1];
    assert Le16(bin, off + 4) == Le16(m, 0);
  }

  lemma PeImageRead(image: Bytes, off: nat, machine: nat)
    requires HeaderPlace(off) && 0x40 <= |image| && off + 6 <= |image| && machine < 0x1_0000
    ensures var named := PeMachine(machine);
            Platform(PeImage(image, off, machine)) == if named.Some? then Some("windows/" + named.value) else None
  {
    PeImageBytes(image, off, machine);
    PeBytesRead(PeImage(image, off, machine), off, machine);
  }

  lemma PeCodes(arch: Arch, other: nat)
    ensures PeMachine(PeCode(arch)) == Some(ArchName(arch))
    ensures (forall a :: PeCode(a) != other) ==> PeMachine(other) == None
  {
    if forall a :: PeCode(a) != other {
      assert PeCode(X86) != other && PeCode(X86_64) != other && PeCode(Arm) != other && PeCode(Aarch64) != other;
    }
  }

  /** Such a file is named after its machine, and not named if its machine is unknown. */
  lemma PeRoundTrip(image: Bytes, off: nat, arch: Arch, other: nat)
    requires HeaderPlace(off) && 0x40 <= |image| && off + 6 <= |image|
    ensures Platform(PeImage(image, off, PeCode(arch))) == Some("windows/" + ArchName(arch))
    ensures other < 0x1_0000 && (forall a :: PeCode(a) != other) ==> Platform(PeImage(image, off, other)) == None
  {
    PeCodes(arch, other);
    PeImageRead(image, off, PeCode(arch));
    if other < 0x1_0000 {
      PeImageRead(image, off, other);
    }
  }

  /** Every file that is recognised as PE has its header in such a place. */
  lemma PePlaces(bin: Bytes)
    requires DetectPeArch(bin).Some?
    ensures var off := Word32(bin, 0x3C, false);
            HeaderPlace(off) && off + 6 <= |bin| && bin[off..off + 4] == PE_SIGNATURE
  {
    var off := Word32(bin, 0x3C, false);
    var signature := bin[off..off + 4];
    assert bin[off] == signature[0] && bin[off + 1] == signature[1] && bin[off + 2] == signature[2] && bin[off + 3] == signature[3];
    assert bin[0] == bin[..2][0] && bin[1] == bin[..2][1];
    assert off == bin[0x3C] as nat + 0x100 * bin[0x3D] as nat + 0x1_0000 * (bin[0x3E] as nat + 0x100 * bin[0x3F] as nat);
    if off < 0x40 {
      assert bin[0x3C] as nat == off && bin[0x3D] == 0 && bin[0x3E] == 0 && bin[0x3F] == 0;
    }
  }
}
