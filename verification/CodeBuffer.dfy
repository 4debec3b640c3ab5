/** The buffer the second compile pass writes into, with the handful of ways in
  * which it is written. Its size is what the first pass measured.
  */
module CodeBuffer {
  import opened Opcodes
  import opened Tree

  class Compiler {
    const buf: array<byte>
    /** The number of the last capturing group, known from the first pass. */
    const finalBracount: nat
    /** The code pointer. */
    var end: nat
    /** Offsets of the operands of calls to groups not yet seen. */
    var hwm: seq<nat>
    /** The code up to the code pointer, and the links it stands for. */
    ghost var code: seq<byte>
    ghost var x: Links

    ghost predicate Valid()
      reads this, buf
    {
      end == |code| <= buf.Length <= 65536 && buf[..end] == code
    }

    lemma Bounds()
      requires Valid()
      ensures end == |code| <= buf.Length <= 65536
    {
    }

    constructor (length: nat, lastGroup: nat)
      requires length <= 65536
      ensures Valid() && fresh(buf) && buf.Length == length && finalBracount == lastGroup
      ensures code == [] && hwm == [] && x == Links(map[0 := 0], {}, true)
    {
      buf := new byte[length](_ => 0);
      finalBracount := lastGroup;
      end, hwm, code, x := 0, [], [], Links(map[0 := 0], {}, true);
    }

    /** Append a byte. */
    method Emit(b: byte)
      requires Valid() && end < buf.Length
      modifies this`end, this`code, buf
      ensures Valid() && code == old(code) + [b]
    {
      buf[end] := b;
      end := end + 1;
      code := code + [b];
    }

    /** Append a two-byte operand. */
    method EmitLink(v: nat)
      requires Valid() && end + 2 <= buf.Length
      modifies this`end, this`code, buf
      ensures Valid() && code == old(code) + [v / 256 % 256, v % 256]
      ensures v < 65536 ==> Get(code, old(end)) == v
    {
      buf[end], buf[end + 1] := v / 256 % 256, v % 256;
      end := end + 2;
      code := code + [v / 256 % 256, v % 256];
    }

    method EmitBytes(bytes: seq<byte>)
      requires Valid() && end + |bytes| <= buf.Length
      modifies this`end, this`code, buf
      ensures Valid() && code == old(code) + bytes
    {
      forall i | 0 <= i < |bytes| {
        buf[end + i] := bytes[i];
      }
      end := end + |bytes|;
      code := code + bytes;
    }

    method SetByte(i: nat, b: byte)
      requires Valid() && i < end
      modifies this`code, buf
      ensures Valid() && code == old(code)[i := b]
      ensures forall k :: end <= k < buf.Length ==> buf[k] == old(buf[k])
    {
      buf[i] := b;
      code := code[i := b];
    }

    method SetLink(i: nat, v: nat)
      requires Valid() && i + 1 < end
      modifies this`code, buf
      ensures Valid() && code == Put(old(code), i, v)
      ensures forall k :: end <= k < buf.Length ==> buf[k] == old(buf[k])
    {
      buf[i], buf[i + 1] := v / 256 % 256, v % 256;
      code := Put(code, i, v);
    }

    method LinkAt(i: nat) returns (v: nat)
      requires Valid() && i + 1 < end
      ensures v == Get(code, i)
    {
      v := buf[i] as int * 256 + buf[i + 1];
    }

    /** Take back everything from offset n on. */
    method CutTo(n: nat)
      requires Valid() && n <= end
      modifies this`end, this`code
      ensures Valid() && code == old(code)[..n]
    {
      end := n;
      code := code[..n];
    }

    /** Mark the end of the code for a scan, without making it part of the code. */
    method Terminate()
      requires Valid() && end < buf.Length
      modifies buf
      ensures Valid() && buf[end] == OP_END
    {
      buf[end] := OP_END;
    }

    /** Move the code from offset g on up, and put the header into the gap. */
    method MoveUp(g: nat, header: seq<byte>)
      requires Valid() && g <= end && end + |header| <= buf.Length
      modifies this`end, this`code, buf
      ensures Valid() && code == old(code)[..g] + header + old(code)[g..]
    {
      var d := |header|;
      forall i | g <= i < end {
        buf[i + d] := buf[i];
      }
      forall i | 0 <= i < d {
        buf[g + i] := header[i];
      }
      end := end + d;
      code := code[..g] + header + code[g..];
    }

    /** Append a copy of n bytes from offset g. */
    method CopyToEnd(g: nat, n: nat)
      requires Valid() && g + n <= end && end + n <= buf.Length
      modifies this`end, this`code, buf
      ensures Valid() && code == old(code) + old(code)[g..g + n]
    {
      forall i | 0 <= i < n {
        buf[end + i] := buf[g + i];
      }
      assert buf[..end] == code && buf[end..end + n] == code[g..g + n];
      end := end + n;
      code := code + code[g..g + n];
    }
  }
}
