/** The SD browser's own arithmetic and the start of a print from a file: the encoder clamp
    of view_menu_sdcard, the check that refuses a long filename with non-ASCII bytes, and the
    `M23 <name>` command built from the short name. */
module SdFile {
  import opened Ints
  import opened Utf8Text

  // ---------------------------------------------------------------------------
  // The browser's clamp

  /** view_menu_sdcard's correction of the encoder position against a list of `length`
      entries: negative positions become 0, positions past the last step of the last entry
      become that step. */
  function SdClamp(p: int16, length: uint8, steps: int): (r: int16)
    requires 1 <= steps <= 128
  {
    if p < 0 then 0
    else if p > steps * length - 1 then steps * length - 1
    else p
  }

  /** For a non-empty list the clamped position is a step of one of its entries, the entry
      it selects is in the list, and a position already in range is left alone. */
  lemma {:induction false} SdClampSelectsEntry(p: int16, length: uint8, steps: int)
    requires 1 <= steps <= 128 && 1 <= length
    ensures 0 <= SdClamp(p, length, steps) <= steps * length - 1
    ensures 0 <= CDiv(SdClamp(p, length, steps), steps) <= length - 1
    ensures 0 <= p <= steps * length - 1 ==> SdClamp(p, length, steps) == p
  {
    MulMonotone(1, length, steps);
    QuotientBelow(SdClamp(p, length, steps), steps, length);
  }

  /** For an empty list the position becomes -1, whose quotient truncates to 0 (to -1, read
      back as entry 255, with one step per entry). */
  lemma SdClampEmptyList(p: int16, steps: int)
    requires 1 <= steps <= 128 && p >= 0
    ensures SdClamp(p, 0, steps) == -1
    ensures ToUint8(CDiv(-1, steps)) == if steps == 1 then 255 else 0
  {
  }

  // ---------------------------------------------------------------------------
  // The filename check

  /** Every byte of the name, up to its NUL, is 7-bit ASCII. */
  predicate PlainName(name: seq<bv8>)
    requires 0 in name
  {
    forall i :: 0 <= i < |UpToNul(name)| ==> UpToNul(name)[i] as int <= 127
  }

  /** menu_action_sdfile's check loop: walks the copied long filename up to its NUL and stops
      at the first byte above 127. */
  method FilenameIsPlain(name: seq<bv8>) returns (ok: bool)
    requires 0 in name
    ensures ok <==> PlainName(name)
  {
    ghost var t := UpToNul(name);
    var i := 0;
    while name[i] != 0
      invariant 0 <= i <= |t|
      invariant forall j :: 0 <= j < i ==> name[j] as int <= 127
      decreases |t| - i
    {
      if i == |t| {
        assert false;
      }
      if name[i] as int > 127 {
        assert t[i] == name[i];
        return false;
      }
      i := i + 1;
    }
    assert forall j :: 0 <= j < |t| ==> t[j] == name[j];
    ok := true;
  }

  // ---------------------------------------------------------------------------
  // The select command

  /** `tolower` of the C locale. */
  function ToLower(b: bv8): (r: bv8)
    ensures 'A' as bv8 <= b <= 'Z' as bv8 ==> r == b + 32
    ensures !('A' as bv8 <= b <= 'Z' as bv8) ==> r == b
  {
    if 'A' as bv8 <= b <= 'Z' as bv8 then b + 32 else b
  }

  function LowerAll(s: seq<bv8>): (r: seq<bv8>)
    ensures |r| == |s| && forall i :: 0 <= i < |s| ==> r[i] == ToLower(s[i])
  {
    seq(|s|, i requires 0 <= i < |s| => ToLower(s[i]))
  }

  /** "M23 " */
  const M23_PREFIX: seq<bv8> := [0x4D, 0x32, 0x33, 0x20]

  /** `sprintf_P(cmd, PSTR("M23 %s"), filename)` followed by the in-place loop that lowercases
      everything after the prefix up to the NUL. The result holds the command and its NUL. */
  method BuildSelectCommand(shortName: seq<bv8>) returns (cmd: array<bv8>)
    requires 0 in shortName
    ensures fresh(cmd)
    ensures cmd[..] == M23_PREFIX + LowerAll(UpToNul(shortName)) + [0]
  {
    var name := UpToNul(shortName);
    var text := M23_PREFIX + name + [0];
    cmd := new bv8[|text|](i requires 0 <= i < |text| => text[i]);
    var c := 4;
    while cmd[c] != 0
      invariant 4 <= c <= |name| + 4 && cmd.Length == |name| + 5
      invariant forall j :: 0 <= j < 4 ==> cmd[j] == M23_PREFIX[j]
      invariant forall j :: 4 <= j < c ==> cmd[j] == ToLower(name[j - 4])
      invariant forall j :: c <= j < |name| + 4 ==> cmd[j] == name[j - 4]
      invariant cmd[|name| + 4] == 0
      decreases |name| + 4 - c
    {
      if c == |name| + 4 {
        assert false;
      }
      cmd[c] := ToLower(cmd[c]);
      c := c + 1;
    }
    assert cmd[..] == M23_PREFIX + LowerAll(name) + [0] by {
      forall j | 0 <= j < cmd.Length
        ensures cmd[j] == (M23_PREFIX + LowerAll(name) + [0])[j]
      {
        if j < 4 {
        } else if j < |name| + 4 {
        }
      }
    }
  }

  /** A lowercased name keeps every byte that is not an upper-case letter and has no
      upper-case letters left. */
  lemma {:induction false} LowerAllIsLower(s: seq<bv8>)
    ensures forall i :: 0 <= i < |s| ==> !('A' as bv8 <= LowerAll(s)[i] <= 'Z' as bv8)
  {
    forall i | 0 <= i < |s| ensures !('A' as bv8 <= LowerAll(s)[i] <= 'Z' as bv8) {
      var b := s[i];
      assert LowerAll(s)[i] == ToLower(b);
      LowerNotUpper(b);
    }
  }

  lemma LowerNotUpper(b: bv8)
    ensures !('A' as bv8 <= ToLower(b) <= 'Z' as bv8)
  {
  }
}
