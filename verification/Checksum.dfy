/**
 The checksum of a datagram: the table-driven CRC-32 of section 8 of RFC 1952, over the
 buffers that make it up.
 */
module Checksum {
  import opened Buffers

  const POLYNOMIAL: bv32 := 0xEDB88320

  function Xor(a: bv32, b: bv32): bv32 {
    a ^ b
  }

  function Low(x: bv32): bv32 {
    x & 0xFF
  }

  function High(x: bv32): bv32 {
    x & 0xFFFFFF00
  }

  function Down(x: bv32): bv32 {
    x >> 8
  }

  function Wide(b: bv8): (w: bv32)
    ensures w < 256
  {
    b as bv32
  }

  /** One bit of the reflected division. */
  function Bit(x: bv32): bv32 {
    (x >> 1) ^ (if x & 1 == 1 then POLYNOMIAL else 0)
  }

  /** A byte's worth of it. */
  function Eight(x: bv32): bv32 {
    Bit(Bit(Bit(Bit(Bit(Bit(Bit(Bit(x))))))))
  }

  /** The remainder after a message, a bit at a time. */
  function Remainder(data: seq<bv8>): bv32 {
    if data == [] then 0xFFFFFFFF
    else Eight(Xor(Remainder(data[..|data| - 1]), Wide(data[|data| - 1])))
  }

  /** The bytes in the order the network wants, from a little-endian host. */
  function Swapped(x: bv32): bv32 {
    (x >> 24) | ((x >> 8) & 0xFF00) | ((x << 8) & 0xFF0000) | (x << 24)
  }

  // ----- the table

  function Pick(k: bv32, a: bv32, b: bv32, c: bv32, d: bv32, e: bv32, f: bv32, g: bv32, h: bv32): bv32 {
    if k == 0 then a else if k == 1 then b else if k == 2 then c else if k == 3 then d
    else if k == 4 then e else if k == 5 then f else if k == 6 then g else h
  }

  /** The table, eight entries a row. */
  function Table(i: bv32): bv32 {
    var row, k := i >> 3, i & 7;
    if row == 0 then
      Pick(k, 0x00000000, 0x77073096, 0xEE0E612C, 0x990951BA, 0x076DC419, 0x706AF48F, 0xE963A535, 0x9E6495A3)
    else if row == 1 then
      Pick(k, 0x0EDB8832, 0x79DCB8A4, 0xE0D5E91E, 0x97D2D988, 0x09B64C2B, 0x7EB17CBD, 0xE7B82D07, 0x90BF1D91)
    else if row == 2 then
      Pick(k, 0x1DB71064, 0x6AB020F2, 0xF3B97148, 0x84BE41DE, 0x1ADAD47D, 0x6DDDE4EB, 0xF4D4B551, 0x83D385C7)
    else if row == 3 then
      Pick(k, 0x136C9856, 0x646BA8C0, 0xFD62F97A, 0x8A65C9EC, 0x14015C4F, 0x63066CD9, 0xFA0F3D63, 0x8D080DF5)
    else if row == 4 then
      Pick(k, 0x3B6E20C8, 0x4C69105E, 0xD56041E4, 0xA2677172, 0x3C03E4D1, 0x4B04D447, 0xD20D85FD, 0xA50AB56B)
    else if row == 5 then
      Pick(k, 0x35B5A8FA, 0x42B2986C, 0xDBBBC9D6, 0xACBCF940, 0x32D86CE3, 0x45DF5C75, 0xDCD60DCF, 0xABD13D59)
    else if row == 6 then
      Pick(k, 0x26D930AC, 0x51DE003A, 0xC8D75180, 0xBFD06116, 0x21B4F4B5, 0x56B3C423, 0xCFBA9599, 0xB8BDA50F)
    else if row == 7 then
      Pick(k, 0x2802B89E, 0x5F058808, 0xC60CD9B2, 0xB10BE924, 0x2F6F7C87, 0x58684C11, 0xC1611DAB, 0xB6662D3D)
    else if row == 8 then
      Pick(k, 0x76DC4190, 0x01DB7106, 0x98D220BC, 0xEFD5102A, 0x71B18589, 0x06B6B51F, 0x9FBFE4A5, 0xE8B8D433)
    else if row == 9 then
      Pick(k, 0x7807C9A2, 0x0F00F934, 0x9609A88E, 0xE10E9818, 0x7F6A0DBB, 0x086D3D2D, 0x91646C97, 0xE6635C01)
    else if row == 10 then
      Pick(k, 0x6B6B51F4, 0x1C6C6162, 0x856530D8, 0xF262004E, 0x6C0695ED, 0x1B01A57B, 0x8208F4C1, 0xF50FC457)
    else if row == 11 then
      Pick(k, 0x65B0D9C6, 0x12B7E950, 0x8BBEB8EA, 0xFCB9887C, 0x62DD1DDF, 0x15DA2D49, 0x8CD37CF3, 0xFBD44C65)
    else if row == 12 then
      Pick(k, 0x4DB26158, 0x3AB551CE, 0xA3BC0074, 0xD4BB30E2, 0x4ADFA541, 0x3DD895D7, 0xA4D1C46D, 0xD3D6F4FB)
    else if row == 13 then
      Pick(k, 0x4369E96A, 0x346ED9FC, 0xAD678846, 0xDA60B8D0, 0x44042D73, 0x33031DE5, 0xAA0A4C5F, 0xDD0D7CC9)
    else if row == 14 then
      Pick(k, 0x5005713C, 0x270241AA, 0xBE0B1010, 0xC90C2086, 0x5768B525, 0x206F85B3, 0xB966D409, 0xCE61E49F)
    else if row == 15 then
      Pick(k, 0x5EDEF90E, 0x29D9C998, 0xB0D09822, 0xC7D7A8B4, 0x59B33D17, 0x2EB40D81, 0xB7BD5C3B, 0xC0BA6CAD)
    else if row == 16 then
      Pick(k, 0xEDB88320, 0x9ABFB3B6, 0x03B6E20C, 0x74B1D29A, 0xEAD54739, 0x9DD277AF, 0x04DB2615, 0x73DC1683)
    else if row == 17 then
      Pick(k, 0xE3630B12, 0x94643B84, 0x0D6D6A3E, 0x7A6A5AA8, 0xE40ECF0B, 0x9309FF9D, 0x0A00AE27, 0x7D079EB1)
    else if row == 18 then
      Pick(k, 0xF00F9344, 0x8708A3D2, 0x1E01F268, 0x6906C2FE, 0xF762575D, 0x806567CB, 0x196C3671, 0x6E6B06E7)
    else if row == 19 then
      Pick(k, 0xFED41B76, 0x89D32BE0, 0x10DA7A5A, 0x67DD4ACC, 0xF9B9DF6F, 0x8EBEEFF9, 0x17B7BE43, 0x60B08ED5)
    else if row == 20 then
      Pick(k, 0xD6D6A3E8, 0xA1D1937E, 0x38D8C2C4, 0x4FDFF252, 0xD1BB67F1, 0xA6BC5767, 0x3FB506DD, 0x48B2364B)
    else if row == 21 then
      Pick(k, 0xD80D2BDA, 0xAF0A1B4C, 0x36034AF6, 0x41047A60, 0xDF60EFC3, 0xA867DF55, 0x316E8EEF, 0x4669BE79)
    else if row == 22 then
      Pick(k, 0xCB61B38C, 0xBC66831A, 0x256FD2A0, 0x5268E236, 0xCC0C7795, 0xBB0B4703, 0x220216B9, 0x5505262F)
    else if row == 23 then
      Pick(k, 0xC5BA3BBE, 0xB2BD0B28, 0x2BB45A92, 0x5CB36A04, 0xC2D7FFA7, 0xB5D0CF31, 0x2CD99E8B, 0x5BDEAE1D)
    else if row == 24 then
      Pick(k, 0x9B64C2B0, 0xEC63F226, 0x756AA39C, 0x026D930A, 0x9C0906A9, 0xEB0E363F, 0x72076785, 0x05005713)
    else if row == 25 then
      Pick(k, 0x95BF4A82, 0xE2B87A14, 0x7BB12BAE, 0x0CB61B38, 0x92D28E9B, 0xE5D5BE0D, 0x7CDCEFB7, 0x0BDBDF21)
    else if row == 26 then
      Pick(k, 0x86D3D2D4, 0xF1D4E242, 0x68DDB3F8, 0x1FDA836E, 0x81BE16CD, 0xF6B9265B, 0x6FB077E1, 0x18B74777)
    else if row == 27 then
      Pick(k, 0x88085AE6, 0xFF0F6A70, 0x66063BCA, 0x11010B5C, 0x8F659EFF, 0xF862AE69, 0x616BFFD3, 0x166CCF45)
    else if row == 28 then
      Pick(k, 0xA00AE278, 0xD70DD2EE, 0x4E048354, 0x3903B3C2, 0xA7672661, 0xD06016F7, 0x4969474D, 0x3E6E77DB)
    else if row == 29 then
      Pick(k, 0xAED16A4A, 0xD9D65ADC, 0x40DF0B66, 0x37D83BF0, 0xA9BCAE53, 0xDEBB9EC5, 0x47B2CF7F, 0x30B5FFE9)
    else if row == 30 then
      Pick(k, 0xBDBDF21C, 0xCABAC28A, 0x53B39330, 0x24B4A3A6, 0xBAD03605, 0xCDD70693, 0x54DE5729, 0x23D967BF)
    else Pick(k, 0xB3667A2E, 0xC4614AB8, 0x5D681B02, 0x2A6F2B94, 0xB40BBE37, 0xC30C8EA1, 0x5A05DF1B, 0x2D02EF8D)
  }

  lemma Rows0(i: bv32)
    requires i < 32
    ensures Table(i) == Eight(i)
  {
    if i < 16 {
      FirstRows(i);
    } else if i < 24 {
      assert Table(i) == Eight(i);
    }
  }

  lemma FirstRows(i: bv32)
    requires i < 16
    ensures Table(i) == Eight(i)
  {
    if i < 4 {
      assert Table(i) == Eight(i);
    } else if i < 8 {
      assert Table(i) == Eight(i);
    } else if i < 12 {
      assert Table(i) == Eight(i);
    }
  }

  lemma Rows1(i: bv32)
    requires 32 <= i < 64
    ensures Table(i) == Eight(i)
  {
    if i < 40 {
      assert Table(i) == Eight(i);
    } else if i < 48 {
      assert Table(i) == Eight(i);
    } else if i < 56 {
      assert Table(i) == Eight(i);
    }
  }

  lemma Rows2(i: bv32)
    requires 64 <= i < 96
    ensures Table(i) == Eight(i)
  {
    if i < 72 {
      assert Table(i) == Eight(i);
    } else if i < 80 {
      assert Table(i) == Eight(i);
    } else if i < 88 {
      assert Table(i) == Eight(i);
    }
  }

  lemma Rows3(i: bv32)
    requires 96 <= i < 128
    ensures Table(i) == Eight(i)
  {
    if i < 104 {
      assert Table(i) == Eight(i);
    } else if i < 112 {
      assert Table(i) == Eight(i);
    } else if i < 120 {
      assert Table(i) == Eight(i);
    }
  }

  lemma Rows4(i: bv32)
    requires 128 <= i < 160
    ensures Table(i) == Eight(i)
  {
    if i < 136 {
      assert Table(i) == Eight(i);
    } else if i < 144 {
      assert Table(i) == Eight(i);
    } else if i < 152 {
      assert Table(i) == Eight(i);
    }
  }

  lemma Rows5(i: bv32)
    requires 160 <= i < 192
    ensures Table(i) == Eight(i)
  {
    if i < 168 {
      assert Table(i) == Eight(i);
    } else if i < 176 {
      assert Table(i) == Eight(i);
    } else if i < 184 {
      assert Table(i) == Eight(i);
    }
  }

  lemma Rows6(i: bv32)
    requires 192 <= i < 224
    ensures Table(i) == Eight(i)
  {
    if i < 200 {
      assert Table(i) == Eight(i);
    } else if i < 208 {
      assert Table(i) == Eight(i);
    } else if i < 216 {
      assert Table(i) == Eight(i);
    }
  }

  lemma Rows7(i: bv32)
    requires 224 <= i < 256
    ensures Table(i) == Eight(i)
  {
    if i < 232 {
      assert Table(i) == Eight(i);
    } else if i < 240 {
      assert Table(i) == Eight(i);
    } else if i < 248 {
      assert Table(i) == Eight(i);
    }
  }

  /** Every entry of the table is what eight bits of division make of its index. */
  lemma TableRight(i: bv32)
    requires i < 256
    ensures Table(i) == Eight(i)
  {
    hide Table, Eight;
    if i < 32 {
      Rows0(i);
    } else if i < 64 {
      Rows1(i);
    } else if i < 96 {
      Rows2(i);
    } else if i < 128 {
      Rows3(i);
    } else if i < 160 {
      Rows4(i);
    } else if i < 192 {
      Rows5(i);
    } else if i < 224 {
      Rows6(i);
    } else {
      Rows7(i);
    }
  }

  // ----- division is linear

  lemma BothOdd(a: bv32, b: bv32)
    requires a & 1 == 1 && b & 1 == 1
    ensures Bit(a ^ b) == Bit(a) ^ Bit(b)
  {
  }

  lemma BothEven(a: bv32, b: bv32)
    requires a & 1 == 0 && b & 1 == 0
    ensures Bit(a ^ b) == Bit(a) ^ Bit(b)
  {
  }

  lemma OddEven(a: bv32, b: bv32)
    requires a & 1 == 1 && b & 1 == 0
    ensures Bit(a ^ b) == Bit(a) ^ Bit(b) && Bit(b ^ a) == Bit(b) ^ Bit(a)
  {
  }

  lemma LastBit(a: bv32)
    ensures a & 1 == 0 || a & 1 == 1
  {
  }

  lemma BitXor(a: bv32, b: bv32)
    ensures Bit(a ^ b) == Bit(a) ^ Bit(b)
  {
    hide Bit;
    LastBit(a);
    LastBit(b);
    if a & 1 == 1 {
      if b & 1 == 1 {
        BothOdd(a, b);
      } else {
        OddEven(a, b);
      }
    } else if b & 1 == 1 {
      OddEven(b, a);
    } else {
      BothEven(a, b);
    }
  }

  /** Some bits of the division. */
  function Bits(x: bv32, n: nat): bv32 {
    if n == 0 then x else Bit(Bits(x, n - 1))
  }

  lemma {:induction false} BitsXor(a: bv32, b: bv32, n: nat)
    ensures Bits(Xor(a, b), n) == Xor(Bits(a, n), Bits(b, n))
  {
    if n > 0 {
      BitsXor(a, b, n - 1);
      NextXor(Bits(a, n - 1), Bits(b, n - 1));
      hide Bit, Xor;
    }
  }

  /** The same for one bit more. */
  lemma NextXor(x: bv32, y: bv32)
    ensures forall z: bv32 :: z == Xor(x, y) ==> Bit(z) == Xor(Bit(x), Bit(y))
  {
    BitXor(x, y);
  }

  lemma EightBits(x: bv32)
    ensures Eight(x) == Bits(x, 8)
  {
    hide Bit;
    assert Bits(x, 0) == x;
    assert Bits(x, 2) == Bit(Bit(x));
    assert Bits(x, 4) == Bit(Bit(Bit(Bit(x))));
    assert Bits(x, 6) == Bit(Bit(Bits(x, 4)));
  }

  lemma EightXor(a: bv32, b: bv32)
    ensures Eight(Xor(a, b)) == Xor(Eight(a), Eight(b))
  {
    hide Eight, Bits, Xor;
    BitsXor(a, b, 8);
    EightBits(a);
    EightBits(b);
    EightBits(Xor(a, b));
  }

  /** The upper 24 bits only move down. */
  lemma EightHigh(x: bv32)
    ensures Eight(High(x)) == Down(x)
  {
  }

  lemma SplitByte(x: bv32)
    ensures x == Xor(High(x), Low(x))
  {
  }

  lemma LowByte(crc: bv32, b: bv32)
    requires b < 256
    ensures Low(Xor(crc, b)) == Xor(Low(crc), b) && Xor(Low(crc), b) < 256
    ensures Down(Xor(crc, b)) == Down(crc)
  {
  }

  /** The step by the table is eight steps by bits. */
  lemma ByteStep(crc: bv32, b: bv32)
    requires b < 256
    ensures Xor(Down(crc), Table(Xor(Low(crc), b))) == Eight(Xor(crc, b))
  {
    hide Eight, Table, Xor, Low, High, Down;
    var x := Xor(crc, b);
    LowByte(crc, b);
    SplitByte(x);
    EightXor(High(x), Low(x));
    EightHigh(x);
    TableRight(Xor(Low(crc), b));
  }

  // ----- the checksum

  lemma RemainderNext(data: seq<bv8>, b: bv8)
    ensures Remainder(data + [b]) == Eight(Xor(Remainder(data), Wide(b)))
  {
    hide Eight, Xor, Wide;
    assert (data + [b])[..|data|] == data;
  }

  /** The checksum of some buffers is that of their bytes, however they are divided. */
  method Crc32(buffers: seq<seq<bv8>>) returns (checksum: bv32)
    ensures checksum == Swapped(Xor(Remainder(Concat(buffers)), 0xFFFFFFFF))
  {
    hide Eight, Xor, Wide, Table, Low, Down, Swapped, Remainder, Concat;
    var crc: bv32 := 0xFFFFFFFF;
    NoRemainder();
    var i := 0;
    while i < |buffers|
      invariant i <= |buffers| && crc == Remainder(Concat(buffers[..i]))
    {
      var data, k := buffers[i], 0;
      assert Concat(buffers[..i]) + data[..0] == Concat(buffers[..i]);
      while k < |data|
        invariant k <= |data| && crc == Remainder(Concat(buffers[..i]) + data[..k])
      {
        ByteStep(crc, Wide(data[k]));
        RemainderNext(Concat(buffers[..i]) + data[..k], data[k]);
        assert Concat(buffers[..i]) + data[..k] + [data[k]] == Concat(buffers[..i]) + data[..k + 1];
        crc := Xor(Down(crc), Table(Xor(Low(crc), Wide(data[k]))));
        k := k + 1;
      }
      assert data[..k] == data && buffers[..i + 1] == buffers[..i] + [data];
      ConcatNext(buffers[..i], data);
      i := i + 1;
    }
    assert buffers[..i] == buffers;
    checksum := Swapped(Xor(crc, 0xFFFFFFFF));
  }

  lemma NoRemainder()
    ensures Remainder(Concat([])) == 0xFFFFFFFF
  {
  }
}
