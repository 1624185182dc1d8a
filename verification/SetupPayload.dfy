/**
 The payload of the installer: a release is built as program, payload, magic and size, and both
 the installer itself and the setup wizard read the trailer at its end.
 */
module SetupPayload {
  import opened Prelude

  newtype Byte = x: int | 0 <= x < 256

  type Bytes = seq<Byte>

  const TRAILER: nat := 24
  const SIZE_LIMIT: nat := 0x1_0000_0000_0000_0000

  /** "ALPHASETUPZIP01!" */
  const MAGIC: Bytes := [65, 76, 80, 72, 65, 83, 69, 84, 85, 80, 90, 73, 80, 48, 49, 33]

  /** The magic is the ASCII text of the release format. */
  lemma {:induction false} MagicIsText()
    ensures |MAGIC| == |"ALPHASETUPZIP01!"| == 16
    ensures forall i :: 0 <= i < 16 ==> MAGIC[i] as int == "ALPHASETUPZIP01!"[i] as int
  {
  }

  // ----- Numbers in bytes, least significant first -----

  function LittleEndian(n: nat, width: nat): (bytes: Bytes)
    ensures |bytes| == width
  {
    if width == 0 then [] else [(n % 256) as Byte] + LittleEndian(n / 256, width - 1)
  }

  function ValueOf(bytes: Bytes): nat {
    if bytes == [] then 0 else bytes[0] as nat + 256 * ValueOf(bytes[1..])
  }

  function Pow256(k: nat): (p: nat)
    ensures p > 0
  {
    if k == 0 then 1 else 256 * Pow256(k - 1)
  }

  lemma {:induction false} ValueOfLittleEndian(n: nat, width: nat)
    requires n < Pow256(width)
    ensures ValueOf(LittleEndian(n, width)) == n
  {
    if width > 0 {
      ValueOfLittleEndian(n / 256, width - 1);
      assert LittleEndian(n, width)[1..] == LittleEndian(n / 256, width - 1);
    }
  }

  lemma {:induction false} LittleEndianOfValue(bytes: Bytes)
    ensures ValueOf(bytes) < Pow256(|bytes|)
    ensures LittleEndian(ValueOf(bytes), |bytes|) == bytes
  {
    if bytes != [] {
      LittleEndianOfValue(bytes[1..]);
      assert [bytes[0]] + bytes[1..] == bytes;
    }
  }

  lemma SizeFitsEightBytes()
    ensures Pow256(8) == SIZE_LIMIT
  {
    assert Pow256(4) == 0x1_0000_0000;
    assert Pow256(6) == 256 * 256 * Pow256(4);
    assert Pow256(8) == 256 * 256 * Pow256(6);
  }

  lemma {:induction false} ValueAppended(bytes: Bytes, last: Byte)
    ensures ValueOf(bytes + [last]) == ValueOf(bytes) + last as nat * Pow256(|bytes|)
  {
    if bytes == [] {
      assert [last][1..] == [];
    } else {
      assert (bytes + [last])[1..] == bytes[1..] + [last];
      ValueAppended(bytes[1..], last);
    }
  }

  /** The loop over the eight size bytes; the shifted bytes never overlap. */
  method ReadSize(trailer: Bytes) returns (size: nat)
    requires |trailer| == TRAILER
    ensures size == ValueOf(trailer[16..]) < SIZE_LIMIT
  {
    size := 0;
    var i, shift := 0, 1;
    while i < 8
      invariant i <= 8 && shift == Pow256(i) && size == ValueOf(trailer[16..16 + i])
    {
      assert trailer[16..16 + i + 1] == trailer[16..16 + i] + [trailer[16 + i]];
      ValueAppended(trailer[16..16 + i], trailer[16 + i]);
      size := size + trailer[16 + i] as nat * shift;
      shift := shift * 256;
      i := i + 1;
    }
    assert trailer[16..24] == trailer[16..];
    LittleEndianOfValue(trailer[16..]);
    SizeFitsEightBytes();
  }

  // ----- The builder and the readers -----

  /** What the release build writes; the size field takes 64 bits. */
  function Build(program: Bytes, payload: Bytes): Bytes
    requires |payload| < SIZE_LIMIT
  {
    program + payload + MAGIC + LittleEndian(|payload|, 8)
  }

  datatype Failure = Truncated | NotASetup | BadSize | CopyFailed

  datatype Outcome = Payload(bytes: Bytes) | Failed(reason: Failure)

  /** The decisions of the installer about its own file. */
  function Locate(file: Bytes): Outcome {
    if |file| < TRAILER then Failed(Truncated)
    else
      var trailer := file[|file| - TRAILER..];
      var size := ValueOf(trailer[16..]);
      if trailer[..16] != MAGIC then Failed(NotASetup)
      else if size == 0 || size > |file| - TRAILER then Failed(BadSize)
      else Payload(file[|file| - TRAILER - size..|file| - TRAILER])
  }

  /**
   The copy of the payload to the temporary archive, chunk by chunk. `granted(k)` is the number
   of bytes that the k-th read and write get through; none ends the installation.
   */
  method CopyPayload(file: Bytes, start: nat, size: nat, granted: nat -> nat) returns (out: Bytes, ok: bool)
    requires start + size <= |file|
    ensures out <= file[start..start + size]
    ensures ok <==> out == file[start..start + size]
    ensures (forall k :: granted(k) > 0) ==> ok
  {
    out, ok := [], true;
    var left, k := size, 0;
    while left > 0
      invariant 0 <= left <= size && out == file[start..start + size - left]
      decreases left
    {
      var want := if left > 65536 then 65536 else left;
      var got := Min(granted(k), want);
      if got == 0 {
        assert |out| < size;
        return out, false;
      }
      var position := start + size - left;
      out := out + file[position..position + got];
      left := left - got;
      k := k + 1;
    }
    assert out == file[start..start + size];
  }

  /** The installer: it extracts the located payload, or fails for the located reason. */
  method Extract(file: Bytes, granted: nat -> nat) returns (outcome: Outcome)
    ensures outcome == Locate(file) || (Locate(file).Payload? && outcome == Failed(CopyFailed))
    ensures (forall k :: granted(k) > 0) ==> outcome == Locate(file)
  {
    if |file| < TRAILER {
      return Failed(Truncated);
    }
    var trailer := file[|file| - TRAILER..];
    if trailer[..16] != MAGIC {
      return Failed(NotASetup);
    }
    var size := ReadSize(trailer);
    if size == 0 || size > |file| - TRAILER {
      return Failed(BadSize);
    }
    var out, ok := CopyPayload(file, |file| - TRAILER - size, size, granted);
    outcome := if ok then Payload(out) else Failed(CopyFailed);
  }

  predicate IsBuilt(file: Bytes, program: Bytes, payload: Bytes) {
    |payload| < SIZE_LIMIT && file == Build(program, payload)
  }

  lemma Parts(program: Bytes, payload: Bytes, magic: Bytes, size: Bytes)
    requires |magic| == 16 && |size| == 8
    ensures var file := program + payload + magic + size;
      && |file| == |program| + |payload| + TRAILER
      && file[|file| - TRAILER..][..16] == magic && file[|file| - TRAILER..][16..] == size
      && file[|program|..|program| + |payload|] == payload
  {
    var file := program + payload + magic + size;
    assert file[|file| - TRAILER..] == magic + size;
  }

  lemma BuiltParts(program: Bytes, payload: Bytes)
    requires |payload| < SIZE_LIMIT
    ensures var file := Build(program, payload);
      && |file| == |program| + |payload| + TRAILER
      && file[|file| - TRAILER..][..16] == MAGIC && ValueOf(file[|file| - TRAILER..][16..]) == |payload|
      && file[|program|..|program| + |payload|] == payload
  {
    SizeFitsEightBytes();
    ValueOfLittleEndian(|payload|, 8);
    hide LittleEndian, ValueOf, Pow256;
    Parts(program, payload, MAGIC, LittleEndian(|payload|, 8));
  }

  /** What the build writes is what the installer finds, unless the payload is empty. */
  lemma {:induction false} InstallerFindsWhatWasBuilt(program: Bytes, payload: Bytes)
    requires |payload| < SIZE_LIMIT
    ensures Locate(Build(program, payload)) == if payload == [] then Failed(BadSize) else Payload(payload)
  {
    BuiltParts(program, payload);
    hide LittleEndian, ValueOf, Build;
  }

  lemma Rejoined(file: Bytes, program: Bytes, payload: Bytes, magic: Bytes, size: Bytes)
    requires |payload| <= |file| - TRAILER && |magic| == 16
    requires program == file[..|file| - TRAILER - |payload|]
    requires payload == file[|file| - TRAILER - |payload|..|file| - TRAILER]
    requires magic == file[|file| - TRAILER..][..16] && size == file[|file| - TRAILER..][16..]
    ensures file == program + payload + magic + size
  {
    var n := |file| - TRAILER;
    assert file[..n] == program + payload;
    assert file[n..] == magic + size;
    assert file == file[..n] + file[n..];
  }

  lemma LocatedParts(file: Bytes)
    requires Locate(file).Payload?
    ensures var n, payload := |file| - TRAILER, Locate(file).bytes;
      && 0 < |payload| <= n && payload == file[n - |payload|..n]
      && file[n..][..16] == MAGIC && ValueOf(file[n..][16..]) == |payload|
  {
    hide ValueOf;
  }

  lemma SizeBytes(bytes: Bytes)
    requires |bytes| == 8
    ensures ValueOf(bytes) < SIZE_LIMIT && LittleEndian(ValueOf(bytes), 8) == bytes
  {
    LittleEndianOfValue(bytes);
    SizeFitsEightBytes();
  }

  /** The installer accepts no other file: whatever it finds was put there by a build. */
  lemma {:induction false} InstallerAcceptsOnlyBuilt(file: Bytes) returns (program: Bytes)
    requires Locate(file).Payload?
    ensures Locate(file).bytes != [] && IsBuilt(file, program, Locate(file).bytes)
  {
    LocatedParts(file);
    hide Locate, LittleEndian, ValueOf;
    var n, payload := |file| - TRAILER, Locate(file).bytes;
    program := file[..n - |payload|];
    SizeBytes(file[n..][16..]);
    Rejoined(file, program, payload, MAGIC, LittleEndian(|payload|, 8));
  }

  /** The wizard's check before it keeps an installer for later maintenance. */
  method TestSetupInstallerExecutable(file: Bytes) returns (valid: bool)
    ensures valid <==> |file| >= 26 && file[0] == 0x4D && file[1] == 0x5A && Locate(file).Payload?
  {
    if |file| < 26 {
      return false;
    }
    if file[0] != 0x4D || file[1] != 0x5A {
      return false;
    }
    var trailer := file[|file| - TRAILER..];
    var index := 0;
    while index < 16
      invariant index <= 16 && forall k :: 0 <= k < index ==> trailer[..16][k] == MAGIC[k]
    {
      if trailer[index] != MAGIC[index] {
        assert trailer[..16][index] != MAGIC[index];
        return false;
      }
      index := index + 1;
    }
    assert trailer[..16] == MAGIC;
    var size := ReadSize(trailer);
    valid := size > 0 && size <= |file| - TRAILER;
  }

  /** The wizard keeps every built release whose program is an executable, and the installer can read all it keeps. */
  lemma {:induction false} WizardKeepsBuiltReleases(program: Bytes, payload: Bytes)
    requires |payload| < SIZE_LIMIT && |program| >= 2 && program[0] == 0x4D && program[1] == 0x5A
    ensures var file := Build(program, payload);
      payload != [] <==> |file| >= 26 && file[0] == 0x4D && file[1] == 0x5A && Locate(file).Payload?
  {
    InstallerFindsWhatWasBuilt(program, payload);
    BuiltParts(program, payload);
    hide LittleEndian;
  }
}
