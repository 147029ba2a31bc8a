/**
 The byte table of the checksum as libnstd/crc32.c lists it, and the loop that uses it.
 Entry `i` is `i` pushed through eight single-bit steps of the division.
 */
module Crc32Table {
  import opened Crc32

  const ROW_0: seq<bv32> := [
    0x00000000, 0x77073096, 0xEE0E612C, 0x990951BA, 0x076DC419, 0x706AF48F, 0xE963A535, 0x9E6495A3,
    0x0EDB8832, 0x79DCB8A4, 0xE0D5E91E, 0x97D2D988, 0x09B64C2B, 0x7EB17CBD, 0xE7B82D07, 0x90BF1D91]

  const ROW_1: seq<bv32> := [
    0x1DB71064, 0x6AB020F2, 0xF3B97148, 0x84BE41DE, 0x1ADAD47D, 0x6DDDE4EB, 0xF4D4B551, 0x83D385C7,
    0x136C9856, 0x646BA8C0, 0xFD62F97A, 0x8A65C9EC, 0x14015C4F, 0x63066CD9, 0xFA0F3D63, 0x8D080DF5]

  const ROW_2: seq<bv32> := [
    0x3B6E20C8, 0x4C69105E, 0xD56041E4, 0xA2677172, 0x3C03E4D1, 0x4B04D447, 0xD20D85FD, 0xA50AB56B,
    0x35B5A8FA, 0x42B2986C, 0xDBBBC9D6, 0xACBCF940, 0x32D86CE3, 0x45DF5C75, 0xDCD60DCF, 0xABD13D59]

  const ROW_3: seq<bv32> := [
    0x26D930AC, 0x51DE003A, 0xC8D75180, 0xBFD06116, 0x21B4F4B5, 0x56B3C423, 0xCFBA9599, 0xB8BDA50F,
    0x2802B89E, 0x5F058808, 0xC60CD9B2, 0xB10BE924, 0x2F6F7C87, 0x58684C11, 0xC1611DAB, 0xB6662D3D]

  const ROW_4: seq<bv32> := [
    0x76DC4190, 0x01DB7106, 0x98D220BC, 0xEFD5102A, 0x71B18589, 0x06B6B51F, 0x9FBFE4A5, 0xE8B8D433,
    0x7807C9A2, 0x0F00F934, 0x9609A88E, 0xE10E9818, 0x7F6A0DBB, 0x086D3D2D, 0x91646C97, 0xE6635C01]

  const ROW_5: seq<bv32> := [
    0x6B6B51F4, 0x1C6C6162, 0x856530D8, 0xF262004E, 0x6C0695ED, 0x1B01A57B, 0x8208F4C1, 0xF50FC457,
    0x65B0D9C6, 0x12B7E950, 0x8BBEB8EA, 0xFCB9887C, 0x62DD1DDF, 0x15DA2D49, 0x8CD37CF3, 0xFBD44C65]

  const ROW_6: seq<bv32> := [
    0x4DB26158, 0x3AB551CE, 0xA3BC0074, 0xD4BB30E2, 0x4ADFA541, 0x3DD895D7, 0xA4D1C46D, 0xD3D6F4FB,
    0x4369E96A, 0x346ED9FC, 0xAD678846, 0xDA60B8D0, 0x44042D73, 0x33031DE5, 0xAA0A4C5F, 0xDD0D7CC9]

  const ROW_7: seq<bv32> := [
    0x5005713C, 0x270241AA, 0xBE0B1010, 0xC90C2086, 0x5768B525, 0x206F85B3, 0xB966D409, 0xCE61E49F,
    0x5EDEF90E, 0x29D9C998, 0xB0D09822, 0xC7D7A8B4, 0x59B33D17, 0x2EB40D81, 0xB7BD5C3B, 0xC0BA6CAD]

  const ROW_8: seq<bv32> := [
    0xEDB88320, 0x9ABFB3B6, 0x03B6E20C, 0x74B1D29A, 0xEAD54739, 0x9DD277AF, 0x04DB2615, 0x73DC1683,
    0xE3630B12, 0x94643B84, 0x0D6D6A3E, 0x7A6A5AA8, 0xE40ECF0B, 0x9309FF9D, 0x0A00AE27, 0x7D079EB1]

  const ROW_9: seq<bv32> := [
    0xF00F9344, 0x8708A3D2, 0x1E01F268, 0x6906C2FE, 0xF762575D, 0x806567CB, 0x196C3671, 0x6E6B06E7,
    0xFED41B76, 0x89D32BE0, 0x10DA7A5A, 0x67DD4ACC, 0xF9B9DF6F, 0x8EBEEFF9, 0x17B7BE43, 0x60B08ED5]

  const ROW_A: seq<bv32> := [
    0xD6D6A3E8, 0xA1D1937E, 0x38D8C2C4, 0x4FDFF252, 0xD1BB67F1, 0xA6BC5767, 0x3FB506DD, 0x48B2364B,
    0xD80D2BDA, 0xAF0A1B4C, 0x36034AF6, 0x41047A60, 0xDF60EFC3, 0xA867DF55, 0x316E8EEF, 0x4669BE79]

  const ROW_B: seq<bv32> := [
    0xCB61B38C, 0xBC66831A, 0x256FD2A0, 0x5268E236, 0xCC0C7795, 0xBB0B4703, 0x220216B9, 0x5505262F,
    0xC5BA3BBE, 0xB2BD0B28, 0x2BB45A92, 0x5CB36A04, 0xC2D7FFA7, 0xB5D0CF31, 0x2CD99E8B, 0x5BDEAE1D]

  const ROW_C: seq<bv32> := [
    0x9B64C2B0, 0xEC63F226, 0x756AA39C, 0x026D930A, 0x9C0906A9, 0xEB0E363F, 0x72076785, 0x05005713,
    0x95BF4A82, 0xE2B87A14, 0x7BB12BAE, 0x0CB61B38, 0x92D28E9B, 0xE5D5BE0D, 0x7CDCEFB7, 0x0BDBDF21]

  const ROW_D: seq<bv32> := [
    0x86D3D2D4, 0xF1D4E242, 0x68DDB3F8, 0x1FDA836E, 0x81BE16CD, 0xF6B9265B, 0x6FB077E1, 0x18B74777,
    0x88085AE6, 0xFF0F6A70, 0x66063BCA, 0x11010B5C, 0x8F659EFF, 0xF862AE69, 0x616BFFD3, 0x166CCF45]

  const ROW_E: seq<bv32> := [
    0xA00AE278, 0xD70DD2EE, 0x4E048354, 0x3903B3C2, 0xA7672661, 0xD06016F7, 0x4969474D, 0x3E6E77DB,
    0xAED16A4A, 0xD9D65ADC, 0x40DF0B66, 0x37D83BF0, 0xA9BCAE53, 0xDEBB9EC5, 0x47B2CF7F, 0x30B5FFE9]

  const ROW_F: seq<bv32> := [
    0xBDBDF21C, 0xCABAC28A, 0x53B39330, 0x24B4A3A6, 0xBAD03605, 0xCDD70693, 0x54DE5729, 0x23D967BF,
    0xB3667A2E, 0xC4614AB8, 0x5D681B02, 0x2A6F2B94, 0xB40BBE37, 0xC30C8EA1, 0x5A05DF1B, 0x2D02EF8D]

  /** The row that holds the entries of the bytes with high half `r`. */
  function RowOf(r: nat): (row: seq<bv32>)
    requires r < 16
    ensures |row| == 16
  {
    match r
    case 0 => ROW_0
    case 1 => ROW_1
    case 2 => ROW_2
    case 3 => ROW_3
    case 4 => ROW_4
    case 5 => ROW_5
    case 6 => ROW_6
    case 7 => ROW_7
    case 8 => ROW_8
    case 9 => ROW_9
    case 10 => ROW_A
    case 11 => ROW_B
    case 12 => ROW_C
    case 13 => ROW_D
    case 14 => ROW_E
    case _ => ROW_F
  }

  /** The first `k` rows, one after the other. */
  function Rows(k: nat): (t: seq<bv32>)
    requires k <= 16
    ensures |t| == 16 * k
  {
    if k == 0 then [] else Rows(k - 1) + RowOf(k - 1)
  }

  /** The whole table. */
  const TABLE: seq<bv32> := Rows(16)

  // ---------------------------------------------------------------------------
  // Row by row
  // ---------------------------------------------------------------------------

  lemma Quarter0()
    ensures ROW_0[0] == EightSteps(0)
    ensures ROW_0[1] == EightSteps(1)
    ensures ROW_0[2] == EightSteps(2)
    ensures ROW_0[3] == EightSteps(3)
  {
  }

  lemma Quarter1()
    ensures ROW_0[4] == EightSteps(4)
    ensures ROW_0[5] == EightSteps(5)
    ensures ROW_0[6] == EightSteps(6)
    ensures ROW_0[7] == EightSteps(7)
  {
  }

  lemma Quarter2()
    ensures ROW_0[8] == EightSteps(8)
    ensures ROW_0[9] == EightSteps(9)
    ensures ROW_0[10] == EightSteps(10)
    ensures ROW_0[11] == EightSteps(11)
  {
  }

  lemma Quarter3()
    ensures ROW_0[12] == EightSteps(12)
    ensures ROW_0[13] == EightSteps(13)
    ensures ROW_0[14] == EightSteps(14)
    ensures ROW_0[15] == EightSteps(15)
  {
  }

  lemma FirstRow(low: bv8)
    requires low <= 0x0F
    ensures low as nat < 16 && ROW_0[low as nat] == EightSteps(low as bv32)
  {
    hide EightSteps;
    Quarter0();
    Quarter1();
    Quarter2();
    Quarter3();
    match low
    case 0 =>
    case 1 =>
    case 2 =>
    case 3 =>
    case 4 =>
    case 5 =>
    case 6 =>
    case 7 =>
    case 8 =>
    case 9 =>
    case 10 =>
    case 11 =>
    case 12 =>
    case 13 =>
    case 14 =>
    case _ =>
  }

  /** Every entry of a row differs from the row's first one as the same entry of the first row does. */
  ghost predicate Derived(row: seq<bv32>) {
    && |row| == 16
    && row[0] == Xor(row[0], ROW_0[0]) && row[1] == Xor(row[0], ROW_0[1])
    && row[2] == Xor(row[0], ROW_0[2]) && row[3] == Xor(row[0], ROW_0[3])
    && row[4] == Xor(row[0], ROW_0[4]) && row[5] == Xor(row[0], ROW_0[5])
    && row[6] == Xor(row[0], ROW_0[6]) && row[7] == Xor(row[0], ROW_0[7])
    && row[8] == Xor(row[0], ROW_0[8]) && row[9] == Xor(row[0], ROW_0[9])
    && row[10] == Xor(row[0], ROW_0[10]) && row[11] == Xor(row[0], ROW_0[11])
    && row[12] == Xor(row[0], ROW_0[12]) && row[13] == Xor(row[0], ROW_0[13])
    && row[14] == Xor(row[0], ROW_0[14]) && row[15] == Xor(row[0], ROW_0[15])
  }

  lemma Row0()
    ensures Derived(ROW_0) && ROW_0[0] == EightSteps(0x00)
  {
  }

  lemma Row1()
    ensures Derived(ROW_1) && ROW_1[0] == EightSteps(0x10)
  {
  }

  lemma Row2()
    ensures Derived(ROW_2) && ROW_2[0] == EightSteps(0x20)
  {
  }

  lemma Row3()
    ensures Derived(ROW_3) && ROW_3[0] == EightSteps(0x30)
  {
  }

  lemma Row4()
    ensures Derived(ROW_4) && ROW_4[0] == EightSteps(0x40)
  {
  }

  lemma Row5()
    ensures Derived(ROW_5) && ROW_5[0] == EightSteps(0x50)
  {
  }

  lemma Row6()
    ensures Derived(ROW_6) && ROW_6[0] == EightSteps(0x60)
  {
  }

  lemma Row7()
    ensures Derived(ROW_7) && ROW_7[0] == EightSteps(0x70)
  {
  }

  lemma Row8()
    ensures Derived(ROW_8) && ROW_8[0] == EightSteps(0x80)
  {
  }

  lemma Row9()
    ensures Derived(ROW_9) && ROW_9[0] == EightSteps(0x90)
  {
  }

  lemma RowA()
    ensures Derived(ROW_A) && ROW_A[0] == EightSteps(0xA0)
  {
  }

  lemma RowB()
    ensures Derived(ROW_B) && ROW_B[0] == EightSteps(0xB0)
  {
  }

  lemma RowC()
    ensures Derived(ROW_C) && ROW_C[0] == EightSteps(0xC0)
  {
  }

  lemma RowD()
    ensures Derived(ROW_D) && ROW_D[0] == EightSteps(0xD0)
  {
  }

  lemma RowE()
    ensures Derived(ROW_E) && ROW_E[0] == EightSteps(0xE0)
  {
  }

  lemma RowF()
    ensures Derived(ROW_F) && ROW_F[0] == EightSteps(0xF0)
  {
  }

  lemma RowIsDerived(high: bv8)
    requires high & 0x0F == 0
    ensures Derived(RowOf((high >> 4) as nat)) && RowOf((high >> 4) as nat)[0] == EightSteps(high as bv32)
  {
    hide EightSteps;
    hide Derived;
    match high
    case 0x00 => Row0();
    case 0x10 => Row1();
    case 0x20 => Row2();
    case 0x30 => Row3();
    case 0x40 => Row4();
    case 0x50 => Row5();
    case 0x60 => Row6();
    case 0x70 => Row7();
    case 0x80 => Row8();
    case 0x90 => Row9();
    case 0xA0 => RowA();
    case 0xB0 => RowB();
    case 0xC0 => RowC();
    case 0xD0 => RowD();
    case 0xE0 => RowE();
    case _ => RowF();
  }

  lemma DerivedEntry(row: seq<bv32>, low: bv8)
    requires Derived(row) && low <= 0x0F
    ensures low as nat < 16 && row[low as nat] == Xor(row[0], ROW_0[low as nat])
  {
    hide Xor;
    match low
    case 0 =>
    case 1 =>
    case 2 =>
    case 3 =>
    case 4 =>
    case 5 =>
    case 6 =>
    case 7 =>
    case 8 =>
    case 9 =>
    case 10 =>
    case 11 =>
    case 12 =>
    case 13 =>
    case 14 =>
    case _ =>
  }

  lemma Halves(i: bv8)
    ensures (i & 0xF0) & 0x0F == 0 && (i & 0xF0) >> 4 == i >> 4
    ensures Xor((i & 0xF0) as bv32, (i & 0x0F) as bv32) == i as bv32
  {
  }

  lemma HalvesAsNumbers(i: bv8)
    ensures (i >> 4) as nat < 16 && (i & 0x0F) as nat < 16
    ensures 16 * (i >> 4) as nat + (i & 0x0F) as nat == i as nat
  {
  }

  lemma {:induction false} RowInTable(k: nat, r: nat, c: nat)
    requires r < k <= 16 && c < 16
    ensures Rows(k)[16 * r + c] == RowOf(r)[c]
  {
    hide RowOf;
    if r < k - 1 {
      RowInTable(k - 1, r, c);
    }
  }

  /** Every entry of the source's table is its index pushed through eight single-bit steps. */
  lemma TableIsDivision(i: bv8)
    ensures |TABLE| == 256 && TABLE[i as nat] == TableEntry(i)
  {
    hide EightSteps;
    hide Xor;
    hide Derived;
    hide RowOf;
    hide Rows;
    Halves(i);
    HalvesAsNumbers(i);
    RowIsDerived(i & 0xF0);
    DerivedEntry(RowOf((i >> 4) as nat), i & 0x0F);
    FirstRow(i & 0x0F);
    EightStepsLinear((i & 0xF0) as bv32, (i & 0x0F) as bv32);
    RowInTable(16, (i >> 4) as nat, (i & 0x0F) as nat);
  }

  const CHECK_MIDDLE: bv32 := 0x641C1F5C
  const CHECK_LATE: bv32 := 0x651F2550

  lemma CheckSteps()
    ensures ByteStep(0xFFFFFFFF, 0x31) == 0x7C231048
    ensures ByteStep(0x7C231048, 0x32) == 0xB0ACBB32
    ensures ByteStep(0xB0ACBB32, 0x33) == 0x77B79C2D
    ensures ByteStep(0x77B79C2D, 0x34) == 0x641C1F5C
    ensures ByteStep(0x641C1F5C, 0x35) == 0x340AC5E3
    ensures ByteStep(0x340AC5E3, 0x36) == 0xF68D2C9E
    ensures ByteStep(0xF68D2C9E, 0x37) == 0xAFFC9660
    ensures ByteStep(0xAFFC9660, 0x38) == 0x651F2550
    ensures ByteStep(0x651F2550, 0x39) == 0x340BC6D9
  {
  }

  /** The digits 1 to 9 in ASCII have the check value that CRC-32 is known by. */
  lemma CheckValue()
    ensures Checksum([0x31, 0x32, 0x33, 0x34, 0x35, 0x36, 0x37, 0x38, 0x39]) == 0xCBF4_3926
  {
    hide Register;
    hide ByteStep;
    CheckSteps();
    var a: seq<bv8> := [0x31, 0x32, 0x33, 0x34];
    var b: seq<bv8> := [0x35, 0x36, 0x37, 0x38];
    RegisterOfFour(0xFFFF_FFFF, a);
    RegisterConcat(0xFFFF_FFFF, a, b);
    RegisterConcat(0xFFFF_FFFF, a + b, [0x39]);
    RegisterOfFour(CHECK_MIDDLE, b);
    RegisterOfOne(CHECK_LATE, 0x39);
    assert a + b + [0x39] == [0x31, 0x32, 0x33, 0x34, 0x35, 0x36, 0x37, 0x38, 0x39];
  }

  lemma RegisterOfOne(s: bv32, b: bv8)
    ensures Register(s, [b]) == ByteStep(s, b)
  {
    hide ByteStep;
    assert [b][..0] == [];
  }

  /** One byte of the source's loop: a look into the table. */
  function Consume(crc: bv32, b: bv8): (crc': bv32)
    ensures crc' == ByteStep(crc, b)
  {
    hide TableEntry;
    hide Xor;
    hide Rows;
    var index := (Xor(crc, b as bv32) & 0xFF) as bv8;
    TableIsDivision(index);
    Xor(crc >> 8, TABLE[index as nat])
  }

  /** The source's loop over a buffer, started from the initial value it is always given. */
  method ComputeBuf(buf: seq<bv8>) returns (crc: bv32)
    ensures crc == Checksum(buf)
  {
    hide ByteStep;
    hide Consume;
    hide Xor;
    crc := 0xFFFF_FFFF;
    for i := 0 to |buf|
      invariant crc == Register(0xFFFF_FFFF, buf[..i])
    {
      assert buf[..i + 1][..i] == buf[..i];
      crc := Consume(crc, buf[i]);
    }
    assert buf[..|buf|] == buf;
    crc := Xor(crc, 0xFFFF_FFFF);
  }
}
