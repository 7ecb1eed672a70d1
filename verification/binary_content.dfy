/** The content test of `is_binary_file`: a file is binary when its first
    1024 bytes contain a byte outside the text set. The text set is the
    controls BEL, BS, TAB, LF, FF, CR and ESC, printable ASCII (0x20 to
    0x7E) and every byte from 0x80 up. The test deletes the text bytes
    (`bytes.translate(None, textchars)`) and asks whether anything is left.

    Reading the file is not modelled: the caller passes whether the file
    exists and its content.
 */
module BinaryContent {

  newtype byte = x: int | 0 <= x < 256

  /** How many bytes the test reads from the start of the file. */
  const ReadLimit: nat := 1024

  /** The bytes `textchars` lists. */
  predicate IsTextByte(b: byte)
  {
    b in {7, 8, 9, 10, 12, 13, 27} || 0x20 <= b < 0x7F || 0x80 <= b
  }

  /** `data.translate(None, textchars)`: the bytes that are not text, in
      their order. */
  function DeleteText(data: seq<byte>): (r: seq<byte>)
    ensures |r| <= |data|
    ensures forall i :: 0 <= i < |r| ==> !IsTextByte(r[i]) && r[i] in data
    ensures forall i :: 0 <= i < |data| && !IsTextByte(data[i]) ==> data[i] in r
  {
    if |data| == 0 then []
    else
      var rest := DeleteText(data[1..]);
      assert forall i :: 1 <= i < |data| ==> data[i] == data[1..][i - 1];
      if IsTextByte(data[0]) then rest else [data[0]] + rest
  }

  /** Deleting the text bytes of one byte keeps it exactly when it is not
      text. */
  lemma DeleteTextOne(b: byte)
    ensures DeleteText([b]) == if IsTextByte(b) then [] else [b]
  {
    assert [b][1..] == [];
  }

  /** Deleting the text bytes works piece by piece: the kept bytes of a
      concatenation are the kept bytes of each part, in order. Together with
      `DeleteTextOne` this fixes the order and the multiplicity of what is
      kept. */
  lemma {:induction false} DeleteTextAppend(a: seq<byte>, b: seq<byte>)
    ensures DeleteText(a + b) == DeleteText(a) + DeleteText(b)
    decreases |a|
  {
    if |a| > 0 {
      DeleteTextAppend(a[1..], b);
      assert (a + b)[0] == a[0] && (a + b)[1..] == a[1..] + b;
    } else {
      assert a + b == b;
    }
  }

  /** `is_binary_string`: something is left once the text bytes are
      deleted, which happens exactly when some byte is not text. */
  predicate IsBinaryString(data: seq<byte>): (b: bool)
    ensures b <==> exists i :: 0 <= i < |data| && !IsTextByte(data[i])
  {
    var kept := DeleteText(data);
    assert |kept| > 0 ==> kept[0] in data;
    |kept| > 0
  }

  /** `is_binary_file`: a missing file is not binary; otherwise its first
      `ReadLimit` bytes decide. */
  predicate IsBinaryFile(present: bool, content: seq<byte>): (b: bool)
    ensures b <==> present && exists i :: 0 <= i < |content| && i < ReadLimit && !IsTextByte(content[i])
  {
    var n := if |content| < ReadLimit then |content| else ReadLimit;
    assert forall i :: 0 <= i < n ==> content[..n][i] == content[i];
    present && IsBinaryString(content[..n])
  }

  /** The bytes that make content binary, listed by range: NUL to ACK, VT,
      SO to SUB, FS to US, and DEL. */
  lemma NonTextBytes(b: byte)
    ensures !IsTextByte(b) <==> b < 7 || b == 11 || 14 <= b < 27 || 28 <= b < 32 || b == 127
  {
  }

  /** Scan the bytes until one that is not text is found. */
  method ScanForBinary(data: seq<byte>) returns (binary: bool)
    ensures binary <==> exists i :: 0 <= i < |data| && !IsTextByte(data[i])
    ensures binary == IsBinaryString(data)
  {
    binary := false;
    var i := 0;
    while i < |data| && !binary
      invariant 0 <= i <= |data|
      invariant binary <==> exists j :: 0 <= j < i && !IsTextByte(data[j])
      decreases |data| - i
    {
      if !IsTextByte(data[i]) {
        binary := true;
      }
      i := i + 1;
    }
  }

  /** Bytes past the first `ReadLimit` never make a file binary. */
  lemma TailIsIgnored(head: seq<byte>, tail: seq<byte>)
    requires |head| == ReadLimit
    ensures IsBinaryFile(true, head + tail) == IsBinaryFile(true, head)
  {
    assert (head + tail)[..ReadLimit] == head;
    assert head[..ReadLimit] == head;
  }
}
