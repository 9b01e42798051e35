/**
 * The fixed-point Perlin noise kernel: the permutation table, the gradient
 * selectors, the 8-bit interpolation, the raw signed noise functions in one to
 * four dimensions and the wrappers that map them to unsigned ranges.
 */
module Noise {
  import opened Lib8tion

  /**
   * Ken Perlin's reference permutation of 0..255, followed by a copy of its
   * first entry so that a lookup at a byte plus one stays inside the table.
   * The sixteen rows of sixteen are joined pairwise, so that looking up an
   * entry passes through four joins rather than sixteen.
   */
  const P: seq<u8> :=
    (
      (
        (
          (
            [151, 160, 137,  91,  90,  15, 131,  13, 201,  95,  96,  53, 194, 233,   7, 225] +
            [140,  36, 103,  30,  69, 142,   8,  99,  37, 240,  21,  10,  23, 190,   6, 148]) +
          (
            [247, 120, 234,  75,   0,  26, 197,  62,  94, 252, 219, 203, 117,  35,  11,  32] +
            [ 57, 177,  33,  88, 237, 149,  56,  87, 174,  20, 125, 136, 171, 168,  68, 175])) +
        (
          (
            [ 74, 165,  71, 134, 139,  48,  27, 166,  77, 146, 158, 231,  83, 111, 229, 122] +
            [ 60, 211, 133, 230, 220, 105,  92,  41,  55,  46, 245,  40, 244, 102, 143,  54]) +
          (
            [ 65,  25,  63, 161,   1, 216,  80,  73, 209,  76, 132, 187, 208,  89,  18, 169] +
            [200, 196, 135, 130, 116, 188, 159,  86, 164, 100, 109, 198, 173, 186,   3,  64]))) +
      (
        (
          (
            [ 52, 217, 226, 250, 124, 123,   5, 202,  38, 147, 118, 126, 255,  82,  85, 212] +
            [207, 206,  59, 227,  47,  16,  58,  17, 182, 189,  28,  42, 223, 183, 170, 213]) +
          (
            [119, 248, 152,   2,  44, 154, 163,  70, 221, 153, 101, 155, 167,  43, 172,   9] +
            [129,  22,  39, 253,  19,  98, 108, 110,  79, 113, 224, 232, 178, 185, 112, 104])) +
        (
          (
            [218, 246,  97, 228, 251,  34, 242, 193, 238, 210, 144,  12, 191, 179, 162, 241] +
            [ 81,  51, 145, 235, 249,  14, 239, 107,  49, 192, 214,  31, 181, 199, 106, 157]) +
          (
            [184,  84, 204, 176, 115, 121,  50,  45, 127,   4, 150, 254, 138, 236, 205,  93] +
            [222, 114,  67,  29,  24,  72, 243, 141, 128, 195,  78,  66, 215,  61, 156, 180])))) +
    [151]

  lemma TableShape()
    ensures |P| == 257 && P[256] == P[0] == 151
  {
  }

  /** Entry c of a row of sixteen, found by halving. */
  function Pick(c: int, a0: int, a1: int, a2: int, a3: int, a4: int, a5: int, a6: int, a7: int, a8: int, a9: int, a10: int, a11: int, a12: int, a13: int, a14: int, a15: int): int {
    if c < 8 then (if c < 4 then (if c < 2 then (if c < 1 then a0 else a1) else (if c < 3 then a2 else a3)) else (if c < 6 then (if c < 5 then a4 else a5) else (if c < 7 then a6 else a7))) else (if c < 12 then (if c < 10 then (if c < 9 then a8 else a9) else (if c < 11 then a10 else a11)) else (if c < 14 then (if c < 13 then a12 else a13) else (if c < 15 then a14 else a15)))
  }

  /** Where byte v sits in P: the inverse permutation, row by row. */
  function Position(v: int): int {
    if v < 128 then
      if v < 64 then
        if v < 32 then
          if v < 16 then
            Pick(v - 0,  36, 100, 163, 126, 233, 134,  30,  14,  22, 175,  27,  46, 203,   7, 213,   5)
          else
            Pick(v - 16, 149, 151, 110, 180,  57,  26, 177,  28, 244,  97,  37,  70, 154, 243,  19, 219)
        else
          if v < 48 then
            Pick(v - 32,  47,  50, 197,  45,  17,  24, 136, 178,  91,  87, 155, 173, 164, 231,  89, 148)
          else
            Pick(v - 48,  69, 216, 230, 209, 128,  11,  95,  88,  54,  48, 150, 146,  80, 253,  39,  98)
      else
        if v < 96 then
          if v < 80 then
            Pick(v - 64, 127,  96, 251, 242,  62,  20, 167,  66, 245, 103,  64,  35, 105,  72, 250, 184)
          else
            Pick(v - 80, 102, 208, 141,  76, 225, 142, 119,  55,  51, 109,   4,   3,  86, 239,  40,   9)
        else
          if v < 112 then
            Pick(v - 96,  10, 194, 181,  23, 121, 170,  93,  18, 191,  85, 222, 215, 182, 122, 183,  77)
          else
            Pick(v - 112, 190, 185, 241, 228, 116,  44, 138, 160,  33, 229,  79, 133, 132,  58, 139, 232)
    else
      if v < 192 then
        if v < 160 then
          if v < 144 then
            Pick(v - 128, 248, 176, 115,   6, 106,  82,  67, 114,  59,   2, 236,  68,  16, 247,  21,  94)
          else
            Pick(v - 144, 202, 210,  73, 137,  31,  53, 234,   0, 162, 169, 165, 171, 254, 223,  74, 118)
        else
          if v < 176 then
            Pick(v - 160,   1,  99, 206, 166, 120,  65,  71, 172,  61, 111, 158,  60, 174, 124,  56,  63)
          else
            Pick(v - 176, 227,  49, 188, 205, 255, 220, 152, 157, 224, 189, 125, 107, 117, 153,  29, 204)
      else
        if v < 224 then
          if v < 208 then
            Pick(v - 192, 217, 199,  12, 249, 113,  38, 123, 221, 112,   8, 135,  43, 226, 238, 145, 144)
          else
            Pick(v - 208, 108, 104, 201,  81, 143, 159, 218, 252, 101, 129, 192,  42,  84, 168, 240, 156)
        else
          if v < 240 then
            Pick(v - 224, 186,  15, 130, 147, 195,  78,  83,  75, 187,  13,  34, 211, 237,  52, 200, 214)
          else
            Pick(v - 240,  25, 207, 198, 246,  92,  90, 193,  32, 161, 212, 131, 196,  41, 179, 235, 140)
  }

  /** Position and P undo each other on each run of eight bytes. */
  lemma PositionRun0()
    ensures forall i :: 0 <= i < 8 ==> 0 <= Position(i) < 256 && P[Position(i)] == i && Position(P[i]) == i
  {
    forall i | 0 <= i < 8
      ensures 0 <= Position(i) < 256 && P[Position(i)] == i && Position(P[i]) == i
    {
      assert i == 0 || i == 1 || i == 2 || i == 3 || i == 4 || i == 5 || i == 6 || i == 7;
    }
  }

  lemma PositionRun1()
    ensures forall i :: 8 <= i < 16 ==> 0 <= Position(i) < 256 && P[Position(i)] == i && Position(P[i]) == i
  {
    forall i | 8 <= i < 16
      ensures 0 <= Position(i) < 256 && P[Position(i)] == i && Position(P[i]) == i
    {
      assert i == 8 || i == 9 || i == 10 || i == 11 || i == 12 || i == 13 || i == 14 || i == 15;
    }
  }

  lemma PositionRun2()
    ensures forall i :: 16 <= i < 24 ==> 0 <= Position(i) < 256 && P[Position(i)] == i && Position(P[i]) == i
  {
    forall i | 16 <= i < 24
      ensures 0 <= Position(i) < 256 && P[Position(i)] == i && Position(P[i]) == i
    {
      assert i == 16 || i == 17 || i == 18 || i == 19 || i == 20 || i == 21 || i == 22 || i == 23;
    }
  }

  lemma PositionRun3()
    ensures forall i :: 24 <= i < 32 ==> 0 <= Position(i) < 256 && P[Position(i)] == i && Position(P[i]) == i
  {
    forall i | 24 <= i < 32
      ensures 0 <= Position(i) < 256 && P[Position(i)] == i && Position(P[i]) == i
    {
      assert i == 24 || i == 25 || i == 26 || i == 27 || i == 28 || i == 29 || i == 30 || i == 31;
    }
  }

  lemma PositionRun4()
    ensures forall i :: 32 <= i < 40 ==> 0 <= Position(i) < 256 && P[Position(i)] == i && Position(P[i]) == i
  {
    forall i | 32 <= i < 40
      ensures 0 <= Position(i) < 256 && P[Position(i)] == i && Position(P[i]) == i
    {
      assert i == 32 || i == 33 || i == 34 || i == 35 || i == 36 || i == 37 || i == 38 || i == 39;
    }
  }

  lemma PositionRun5()
    ensures forall i :: 40 <= i < 48 ==> 0 <= Position(i) < 256 && P[Position(i)] == i && Position(P[i]) == i
  {
    forall i | 40 <= i < 48
      ensures 0 <= Position(i) < 256 && P[Position(i)] == i && Position(P[i]) == i
    {
      assert i == 40 || i == 41 || i == 42 || i == 43 || i == 44 || i == 45 || i == 46 || i == 47;
    }
  }

  lemma PositionRun6()
    ensures forall i :: 48 <= i < 56 ==> 0 <= Position(i) < 256 && P[Position(i)] == i && Position(P[i]) == i
  {
    forall i | 48 <= i < 56
      ensures 0 <= Position(i) < 256 && P[Position(i)] == i && Position(P[i]) == i
    {
      assert i == 48 || i == 49 || i == 50 || i == 51 || i == 52 || i == 53 || i == 54 || i == 55;
    }
  }

  lemma PositionRun7()
    ensures forall i :: 56 <= i < 64 ==> 0 <= Position(i) < 256 && P[Position(i)] == i && Position(P[i]) == i
  {
    forall i | 56 <= i < 64
      ensures 0 <= Position(i) < 256 && P[Position(i)] == i && Position(P[i]) == i
    {
      assert i == 56 || i == 57 || i == 58 || i == 59 || i == 60 || i == 61 || i == 62 || i == 63;
    }
  }

  lemma PositionRun8()
    ensures forall i :: 64 <= i < 72 ==> 0 <= Position(i) < 256 && P[Position(i)] == i && Position(P[i]) == i
  {
    forall i | 64 <= i < 72
      ensures 0 <= Position(i) < 256 && P[Position(i)] == i && Position(P[i]) == i
    {
      assert i == 64 || i == 65 || i == 66 || i == 67 || i == 68 || i == 69 || i == 70 || i == 71;
    }
  }

  lemma PositionRun9()
    ensures forall i :: 72 <= i < 80 ==> 0 <= Position(i) < 256 && P[Position(i)] == i && Position(P[i]) == i
  {
    forall i | 72 <= i < 80
      ensures 0 <= Position(i) < 256 && P[Position(i)] == i && Position(P[i]) == i
    {
      assert i == 72 || i == 73 || i == 74 || i == 75 || i == 76 || i == 77 || i == 78 || i == 79;
    }
  }

  lemma PositionRun10()
    ensures forall i :: 80 <= i < 88 ==> 0 <= Position(i) < 256 && P[Position(i)] == i && Position(P[i]) == i
  {
    forall i | 80 <= i < 88
      ensures 0 <= Position(i) < 256 && P[Position(i)] == i && Position(P[i]) == i
    {
      assert i == 80 || i == 81 || i == 82 || i == 83 || i == 84 || i == 85 || i == 86 || i == 87;
    }
  }

  lemma PositionRun11()
    ensures forall i :: 88 <= i < 96 ==> 0 <= Position(i) < 256 && P[Position(i)] == i && Position(P[i]) == i
  {
    forall i | 88 <= i < 96
      ensures 0 <= Position(i) < 256 && P[Position(i)] == i && Position(P[i]) == i
    {
      assert i == 88 || i == 89 || i == 90 || i == 91 || i == 92 || i == 93 || i == 94 || i == 95;
    }
  }

  lemma PositionRun12()
    ensures forall i :: 96 <= i < 104 ==> 0 <= Position(i) < 256 && P[Position(i)] == i && Position(P[i]) == i
  {
    forall i | 96 <= i < 104
      ensures 0 <= Position(i) < 256 && P[Position(i)] == i && Position(P[i]) == i
    {
      assert i == 96 || i == 97 || i == 98 || i == 99 || i == 100 || i == 101 || i == 102 || i == 103;
    }
  }

  lemma PositionRun13()
    ensures forall i :: 104 <= i < 112 ==> 0 <= Position(i) < 256 && P[Position(i)] == i && Position(P[i]) == i
  {
    forall i | 104 <= i < 112
      ensures 0 <= Position(i) < 256 && P[Position(i)] == i && Position(P[i]) == i
    {
      assert i == 104 || i == 105 || i == 106 || i == 107 || i == 108 || i == 109 || i == 110 || i == 111;
    }
  }

  lemma PositionRun14()
    ensures forall i :: 112 <= i < 120 ==> 0 <= Position(i) < 256 && P[Position(i)] == i && Position(P[i]) == i
  {
    forall i | 112 <= i < 120
      ensures 0 <= Position(i) < 256 && P[Position(i)] == i && Position(P[i]) == i
    {
      assert i == 112 || i == 113 || i == 114 || i == 115 || i == 116 || i == 117 || i == 118 || i == 119;
    }
  }

  lemma PositionRun15()
    ensures forall i :: 120 <= i < 128 ==> 0 <= Position(i) < 256 && P[Position(i)] == i && Position(P[i]) == i
  {
    forall i | 120 <= i < 128
      ensures 0 <= Position(i) < 256 && P[Position(i)] == i && Position(P[i]) == i
    {
      assert i == 120 || i == 121 || i == 122 || i == 123 || i == 124 || i == 125 || i == 126 || i == 127;
    }
  }

  lemma PositionRun16()
    ensures forall i :: 128 <= i < 136 ==> 0 <= Position(i) < 256 && P[Position(i)] == i && Position(P[i]) == i
  {
    forall i | 128 <= i < 136
      ensures 0 <= Position(i) < 256 && P[Position(i)] == i && Position(P[i]) == i
    {
      assert i == 128 || i == 129 || i == 130 || i == 131 || i == 132 || i == 133 || i == 134 || i == 135;
    }
  }

  lemma PositionRun17()
    ensures forall i :: 136 <= i < 144 ==> 0 <= Position(i) < 256 && P[Position(i)] == i && Position(P[i]) == i
  {
    forall i | 136 <= i < 144
      ensures 0 <= Position(i) < 256 && P[Position(i)] == i && Position(P[i]) == i
    {
      assert i == 136 || i == 137 || i == 138 || i == 139 || i == 140 || i == 141 || i == 142 || i == 143;
    }
  }

  lemma PositionRun18()
    ensures forall i :: 144 <= i < 152 ==> 0 <= Position(i) < 256 && P[Position(i)] == i && Position(P[i]) == i
  {
    forall i | 144 <= i < 152
      ensures 0 <= Position(i) < 256 && P[Position(i)] == i && Position(P[i]) == i
    {
      assert i == 144 || i == 145 || i == 146 || i == 147 || i == 148 || i == 149 || i == 150 || i == 151;
    }
  }

  lemma PositionRun19()
    ensures forall i :: 152 <= i < 160 ==> 0 <= Position(i) < 256 && P[Position(i)] == i && Position(P[i]) == i
  {
    forall i | 152 <= i < 160
      ensures 0 <= Position(i) < 256 && P[Position(i)] == i && Position(P[i]) == i
    {
      assert i == 152 || i == 153 || i == 154 || i == 155 || i == 156 || i == 157 || i == 158 || i == 159;
    }
  }

  lemma PositionRun20()
    ensures forall i :: 160 <= i < 168 ==> 0 <= Position(i) < 256 && P[Position(i)] == i && Position(P[i]) == i
  {
    forall i | 160 <= i < 168
      ensures 0 <= Position(i) < 256 && P[Position(i)] == i && Position(P[i]) == i
    {
      assert i == 160 || i == 161 || i == 162 || i == 163 || i == 164 || i == 165 || i == 166 || i == 167;
    }
  }

  lemma PositionRun21()
    ensures forall i :: 168 <= i < 176 ==> 0 <= Position(i) < 256 && P[Position(i)] == i && Position(P[i]) == i
  {
    forall i | 168 <= i < 176
      ensures 0 <= Position(i) < 256 && P[Position(i)] == i && Position(P[i]) == i
    {
      assert i == 168 || i == 169 || i == 170 || i == 171 || i == 172 || i == 173 || i == 174 || i == 175;
    }
  }

  lemma PositionRun22()
    ensures forall i :: 176 <= i < 184 ==> 0 <= Position(i) < 256 && P[Position(i)] == i && Position(P[i]) == i
  {
    forall i | 176 <= i < 184
      ensures 0 <= Position(i) < 256 && P[Position(i)] == i && Position(P[i]) == i
    {
      assert i == 176 || i == 177 || i == 178 || i == 179 || i == 180 || i == 181 || i == 182 || i == 183;
    }
  }

  lemma PositionRun23()
    ensures forall i :: 184 <= i < 192 ==> 0 <= Position(i) < 256 && P[Position(i)] == i && Position(P[i]) == i
  {
    forall i | 184 <= i < 192
      ensures 0 <= Position(i) < 256 && P[Position(i)] == i && Position(P[i]) == i
    {
      assert i == 184 || i == 185 || i == 186 || i == 187 || i == 188 || i == 189 || i == 190 || i == 191;
    }
  }

  lemma PositionRun24()
    ensures forall i :: 192 <= i < 200 ==> 0 <= Position(i) < 256 && P[Position(i)] == i && Position(P[i]) == i
  {
    forall i | 192 <= i < 200
      ensures 0 <= Position(i) < 256 && P[Position(i)] == i && Position(P[i]) == i
    {
      assert i == 192 || i == 193 || i == 194 || i == 195 || i == 196 || i == 197 || i == 198 || i == 199;
    }
  }

  lemma PositionRun25()
    ensures forall i :: 200 <= i < 208 ==> 0 <= Position(i) < 256 && P[Position(i)] == i && Position(P[i]) == i
  {
    forall i | 200 <= i < 208
      ensures 0 <= Position(i) < 256 && P[Position(i)] == i && Position(P[i]) == i
    {
      assert i == 200 || i == 201 || i == 202 || i == 203 || i == 204 || i == 205 || i == 206 || i == 207;
    }
  }

  lemma PositionRun26()
    ensures forall i :: 208 <= i < 216 ==> 0 <= Position(i) < 256 && P[Position(i)] == i && Position(P[i]) == i
  {
    forall i | 208 <= i < 216
      ensures 0 <= Position(i) < 256 && P[Position(i)] == i && Position(P[i]) == i
    {
      assert i == 208 || i == 209 || i == 210 || i == 211 || i == 212 || i == 213 || i == 214 || i == 215;
    }
  }

  lemma PositionRun27()
    ensures forall i :: 216 <= i < 224 ==> 0 <= Position(i) < 256 && P[Position(i)] == i && Position(P[i]) == i
  {
    forall i | 216 <= i < 224
      ensures 0 <= Position(i) < 256 && P[Position(i)] == i && Position(P[i]) == i
    {
      assert i == 216 || i == 217 || i == 218 || i == 219 || i == 220 || i == 221 || i == 222 || i == 223;
    }
  }

  lemma PositionRun28()
    ensures forall i :: 224 <= i < 232 ==> 0 <= Position(i) < 256 && P[Position(i)] == i && Position(P[i]) == i
  {
    forall i | 224 <= i < 232
      ensures 0 <= Position(i) < 256 && P[Position(i)] == i && Position(P[i]) == i
    {
      assert i == 224 || i == 225 || i == 226 || i == 227 || i == 228 || i == 229 || i == 230 || i == 231;
    }
  }

  lemma PositionRun29()
    ensures forall i :: 232 <= i < 240 ==> 0 <= Position(i) < 256 && P[Position(i)] == i && Position(P[i]) == i
  {
    forall i | 232 <= i < 240
      ensures 0 <= Position(i) < 256 && P[Position(i)] == i && Position(P[i]) == i
    {
      assert i == 232 || i == 233 || i == 234 || i == 235 || i == 236 || i == 237 || i == 238 || i == 239;
    }
  }

  lemma PositionRun30()
    ensures forall i :: 240 <= i < 248 ==> 0 <= Position(i) < 256 && P[Position(i)] == i && Position(P[i]) == i
  {
    forall i | 240 <= i < 248
      ensures 0 <= Position(i) < 256 && P[Position(i)] == i && Position(P[i]) == i
    {
      assert i == 240 || i == 241 || i == 242 || i == 243 || i == 244 || i == 245 || i == 246 || i == 247;
    }
  }

  lemma PositionRun31()
    ensures forall i :: 248 <= i < 256 ==> 0 <= Position(i) < 256 && P[Position(i)] == i && Position(P[i]) == i
  {
    forall i | 248 <= i < 256
      ensures 0 <= Position(i) < 256 && P[Position(i)] == i && Position(P[i]) == i
    {
      assert i == 248 || i == 249 || i == 250 || i == 251 || i == 252 || i == 253 || i == 254 || i == 255;
    }
  }

  /** The position of byte i among the first 256 entries, and the entry at position i, undo each other. */
  lemma PositionAt(i: int)
    requires 0 <= i < 256
    ensures 0 <= Position(i) < 256 && P[Position(i)] == i && Position(P[i]) == i
  {
    if i < 16 {
      if i < 8 {
        PositionRun0();
      } else {
        PositionRun1();
      }
    } else if i < 32 {
      if i < 24 {
        PositionRun2();
      } else {
        PositionRun3();
      }
    } else if i < 48 {
      if i < 40 {
        PositionRun4();
      } else {
        PositionRun5();
      }
    } else if i < 64 {
      if i < 56 {
        PositionRun6();
      } else {
        PositionRun7();
      }
    } else if i < 80 {
      if i < 72 {
        PositionRun8();
      } else {
        PositionRun9();
      }
    } else if i < 96 {
      if i < 88 {
        PositionRun10();
      } else {
        PositionRun11();
      }
    } else if i < 112 {
      if i < 104 {
        PositionRun12();
      } else {
        PositionRun13();
      }
    } else if i < 128 {
      if i < 120 {
        PositionRun14();
      } else {
        PositionRun15();
      }
    } else if i < 144 {
      if i < 136 {
        PositionRun16();
      } else {
        PositionRun17();
      }
    } else if i < 160 {
      if i < 152 {
        PositionRun18();
      } else {
        PositionRun19();
      }
    } else if i < 176 {
      if i < 168 {
        PositionRun20();
      } else {
        PositionRun21();
      }
    } else if i < 192 {
      if i < 184 {
        PositionRun22();
      } else {
        PositionRun23();
      }
    } else if i < 208 {
      if i < 200 {
        PositionRun24();
      } else {
        PositionRun25();
      }
    } else if i < 224 {
      if i < 216 {
        PositionRun26();
      } else {
        PositionRun27();
      }
    } else if i < 240 {
      if i < 232 {
        PositionRun28();
      } else {
        PositionRun29();
      }
    } else {
      if i < 248 {
        PositionRun30();
      } else {
        PositionRun31();
      }
    }
  }

  /** Entries 0..255 of P are a permutation of 0..255: no byte appears twice and every byte appears. */
  lemma TablePermutation()
    ensures forall i, j :: 0 <= i < 256 && 0 <= j < 256 && P[i] == P[j] ==> i == j
    ensures forall v :: 0 <= v < 256 ==> v in P[..256]
  {
    forall i, j | 0 <= i < 256 && 0 <= j < 256 && P[i] == P[j]
      ensures i == j
    {
      PositionAt(i);
      PositionAt(j);
    }
    forall v | 0 <= v < 256
      ensures v in P[..256]
    {
      PositionAt(v);
      assert P[..256][Position(v)] == v;
    }
  }

  /**
   * A lookup table of the shape the kernel indexes: 257 entries, the last
   * repeating the first.  The kernel functions take the table as a
   * parameter, so everything proved about them holds for any such table;
   * the library itself always passes P.
   */
  type Table = t: seq<u8> | |t| == 257 && t[256] == t[0] witness P

  /** NOISE_P: every index a byte or a byte plus one can take lies inside the table. */
  function NoiseP(p: Table, k: int): (r: u8)
    requires 0 <= k <= 0x100
    ensures k == 0x100 ==> r == NoiseP(p, 0)
  {
    p[k]
  }

  /**
   * The easing curves applied to the fractional parts.  Which curve is used
   * (the quadratic in-out ease or the legacy fade) is a build-time choice.
   */
  datatype Easing = Easing(ease8: u8 -> u8, ease16: u16 -> u16)

  predicate FixesZero(e: Easing) {
    e.ease8(0) == 0 && e.ease16(0) == 0
  }

  /** The legacy fade, scale16(x, x); the 8-bit ease stores it into a byte. */
  function Fade(x: u16): (r: u16)
    ensures r <= x
  {
    Scale16(x, x)
  }

  const FadeEasing: Easing := Easing(x => U8(Fade(x)), Fade)

  lemma FadeFixesZero()
    ensures FixesZero(FadeEasing)
  {
  }

  // ---------------------------------------------------------------------
  // Coordinates: a lattice byte and a fraction

  /** (c >> 16) & 0xFF */
  function Lattice16(c: u32): u8 { (c / 0x1_0000) % 0x100 }

  /** c & 0xFFFF */
  function Frac16(c: u32): u16 { c % 0x1_0000 }

  /** (f >> 1) & 0x7FFF: the fraction as a non-negative signed value. */
  function Half16(f: u16): i16 { (f / 2) % 0x8000 }

  /** c >> 8 on a 16-bit coordinate. */
  function Lattice8(c: u16): u8 { c / 0x100 }

  /** (uint8_t)c */
  function Frac8(c: u16): u8 { c % 0x100 }

  /** ((uint8_t)f >> 1) & 0x7F */
  function Half8(f: u8): i8 { (f / 2) % 0x80 }

  /** The half-scale offset N between a corner and the next one along an axis. */
  const N16: int := 0x8000
  const N8: int := 0x80

  // ---------------------------------------------------------------------
  // Gradient selectors

  /** Unary minus stored back into the same signed type: the most negative value maps to itself. */
  function Negate16(a: i16): i16 { I16(-(a as int)) }
  function Negate8(a: i8): i8 { I8(-(a as int)) }

  /** The sign step shared by the selectors: negate when the given hash bit is set. */
  function Neg16(bit: bool, a: i16): i16 { if bit then Negate16(a) else a }
  function Neg8(bit: bool, a: i8): i8 { if bit then Negate8(a) else a }

  function Bit(h: int, k: nat): bool { (h / Pow2(k)) % 2 == 1 }

  /** grad16 in three dimensions: u from {x, y}, v from {y, x, z}, by the low hash nibble. */
  function Grad16Xyz(hash: u8, x: i16, y: i16, z: i16): i16 {
    var h := hash % 16;
    var u := if h < 8 then x else y;
    var v := if h < 4 then y else if h == 12 || h == 14 then x else z;
    Avg15(Neg16(Bit(h, 0), u), Neg16(Bit(h, 1), v))
  }

  function Grad16Xy(hash: u8, x: i16, y: i16): i16 {
    var h := hash % 8;
    var u := if h < 4 then x else y;
    var v := if h < 4 then y else x;
    Avg15(Neg16(Bit(h, 0), u), Neg16(Bit(h, 1), v))
  }

  /** grad16 in one dimension; hash 8 takes the (1, x) branch because the test is hash > 8. */
  function Grad16X(hash: u8, x: i16): i16 {
    var h := hash % 16;
    var u := if h > 8 then x else if h < 4 then x else 1;
    var v := if h > 8 then x else if h < 4 then 1 else x;
    Avg15(Neg16(Bit(h, 0), u), Neg16(Bit(h, 1), v))
  }

  /** grad8 in three dimensions: the twelve cube edges, with nibbles 12..15 repeating 0..3. */
  function Grad8Xyz(hash: u8, x: i8, y: i8, z: i8): i8 {
    match hash % 16
    case 0 => Avg7(x, y)
    case 1 => Avg7(Negate8(x), y)
    case 2 => Avg7(x, Negate8(y))
    case 3 => Avg7(Negate8(x), Negate8(y))
    case 4 => Avg7(x, z)
    case 5 => Avg7(Negate8(x), z)
    case 6 => Avg7(x, Negate8(z))
    case 7 => Avg7(Negate8(x), Negate8(z))
    case 8 => Avg7(y, z)
    case 9 => Avg7(Negate8(y), z)
    case 10 => Avg7(y, Negate8(z))
    case 11 => Avg7(Negate8(y), Negate8(z))
    case 12 => Avg7(x, y)
    case 13 => Avg7(Negate8(x), y)
    case 14 => Avg7(x, Negate8(y))
    case 15 => Avg7(Negate8(x), Negate8(y))
    case _ => 0
  }

  function Grad8Xy(hash: u8, x: i8, y: i8): i8 {
    var swap := Bit(hash, 2);
    var u := if swap then y else x;
    var v := if swap then x else y;
    Avg7(Neg8(Bit(hash, 0), u), Neg8(Bit(hash, 1), v))
  }

  /** grad8 in one dimension; here bit 3 of the hash selects (x, x). */
  function Grad8X(hash: u8, x: i8): i8 {
    var u := if Bit(hash, 3) then x else if Bit(hash, 2) then 1 else x;
    var v := if Bit(hash, 3) then x else if Bit(hash, 2) then x else 1;
    Avg7(Neg8(Bit(hash, 0), u), Neg8(Bit(hash, 1), v))
  }

  lemma Grad8XyzWraps(hash: u8, x: i8, y: i8, z: i8)
    requires hash % 16 >= 12
    ensures Grad8Xyz(hash, x, y, z) == Grad8Xyz(hash - 12, x, y, z)
  {
    assert (hash - 12) % 16 == hash % 16 - 12;
  }

  /**
   * lerp7by8: move from a towards b by frac/256 of the distance.  Both
   * branches scale an unsigned distance, so the result stays between a and b.
   */
  function Lerp7by8(a: i8, b: i8, frac: u8): (r: i8)
    ensures Min(a, b) <= r <= Max(a, b)
    ensures frac == 0 ==> r == a
  {
    if b > a then
      var delta: u8 := b - a;
      a + Scale8(delta, frac)
    else
      var delta: u8 := a - b;
      a - Scale8(delta, frac)
  }

  // ---------------------------------------------------------------------
  // 16-bit noise: 16.16 fixed-point coordinates, signed raw result

  function Inoise16Raw3D(p: Table, e: Easing, x: u32, y: u32, z: u32): i16 {
    var X, Y, Z := Lattice16(x), Lattice16(y), Lattice16(z);
    var A := U8(NoiseP(p, X) + Y);
    var AA := U8(NoiseP(p, A) + Z);
    var AB := U8(NoiseP(p, A + 1) + Z);
    var B := U8(NoiseP(p, X + 1) + Y);
    var BA := U8(NoiseP(p, B) + Z);
    var BB := U8(NoiseP(p, B + 1) + Z);
    // the signed fractions are taken before easing
    var xx, yy, zz := Half16(Frac16(x)), Half16(Frac16(y)), Half16(Frac16(z));
    var u, v, w := e.ease16(Frac16(x)), e.ease16(Frac16(y)), e.ease16(Frac16(z));
    var X1 := Lerp15by16(Grad16Xyz(NoiseP(p, AA), xx, yy, zz), Grad16Xyz(NoiseP(p, BA), xx - N16, yy, zz), u);
    var X2 := Lerp15by16(Grad16Xyz(NoiseP(p, AB), xx, yy - N16, zz), Grad16Xyz(NoiseP(p, BB), xx - N16, yy - N16, zz), u);
    var X3 := Lerp15by16(Grad16Xyz(NoiseP(p, AA + 1), xx, yy, zz - N16), Grad16Xyz(NoiseP(p, BA + 1), xx - N16, yy, zz - N16), u);
    var X4 := Lerp15by16(Grad16Xyz(NoiseP(p, AB + 1), xx, yy - N16, zz - N16), Grad16Xyz(NoiseP(p, BB + 1), xx - N16, yy - N16, zz - N16), u);
    var Y1 := Lerp15by16(X1, X2, v);
    var Y2 := Lerp15by16(X3, X4, v);
    Lerp15by16(Y1, Y2, w)
  }

  /** One time slice of the 4D kernel: the hashed corner bytes are used as gradient hashes directly. */
  function Slice4D(p: Table, AA: u8, AB: u8, BA: u8, BB: u8, T: u8, xx: i16, yy: i16, zz: i16, u: u16, v: u16, w: u16): i16
    requires 0 <= xx && 0 <= yy && 0 <= zz
  {
    var AAA, AAB := U8(NoiseP(p, AA) + T), U8(NoiseP(p, AA + 1) + T);
    var ABA, ABB := U8(NoiseP(p, AB) + T), U8(NoiseP(p, AB + 1) + T);
    var BAA, BAB := U8(NoiseP(p, BA) + T), U8(NoiseP(p, BA + 1) + T);
    var BBA, BBB := U8(NoiseP(p, BB) + T), U8(NoiseP(p, BB + 1) + T);
    var L1 := Lerp15by16(Grad16Xyz(AAA, xx, yy, zz), Grad16Xyz(BAA, xx - N16, yy, zz), u);
    var L2 := Lerp15by16(Grad16Xyz(ABA, xx, yy - N16, zz), Grad16Xyz(BBA, xx - N16, yy - N16, zz), u);
    var L3 := Lerp15by16(Grad16Xyz(AAB, xx, yy, zz - N16), Grad16Xyz(BAB, xx - N16, yy, zz - N16), u);
    var L4 := Lerp15by16(Grad16Xyz(ABB, xx, yy - N16, zz - N16), Grad16Xyz(BBB, xx - N16, yy - N16, zz - N16), u);
    Lerp15by16(Lerp15by16(L1, L2, v), Lerp15by16(L3, L4, v), w)
  }

  function Inoise16Raw4D(p: Table, e: Easing, x: u32, y: u32, z: u32, t: u32): i16 {
    var X, Y, Z, T := Lattice16(x), Lattice16(y), Lattice16(z), Lattice16(t);
    var u, v, w, s := e.ease16(Frac16(x)), e.ease16(Frac16(y)), e.ease16(Frac16(z)), e.ease16(Frac16(t));
    // here the signed fractions are taken after easing
    var xx, yy, zz := Half16(u), Half16(v), Half16(w);
    var A := U8(NoiseP(p, X) + Y);
    var AA := U8(NoiseP(p, A) + Z);
    var AB := U8(NoiseP(p, A + 1) + Z);
    var B := U8(NoiseP(p, X + 1) + Y);
    var BA := U8(NoiseP(p, B) + Z);
    var BB := U8(NoiseP(p, B + 1) + Z);
    var lower := Slice4D(p, AA, AB, BA, BB, T, xx, yy, zz, u, v, w);
    var upper := Slice4D(p, AA, AB, BA, BB, U8(T + 1), xx, yy, zz, u, v, w);
    Lerp15by16(lower, upper, s)
  }

  function Inoise16Raw2D(p: Table, e: Easing, x: u32, y: u32): i16 {
    var X, Y := Lattice16(x), Lattice16(y);
    var A := U8(NoiseP(p, X) + Y);
    var AA, AB := NoiseP(p, A), NoiseP(p, A + 1);
    var B := U8(NoiseP(p, X + 1) + Y);
    var BA, BB := NoiseP(p, B), NoiseP(p, B + 1);
    var xx, yy := Half16(Frac16(x)), Half16(Frac16(y));
    var u, v := e.ease16(Frac16(x)), e.ease16(Frac16(y));
    var X1 := Lerp15by16(Grad16Xy(NoiseP(p, AA), xx, yy), Grad16Xy(NoiseP(p, BA), xx - N16, yy), u);
    var X2 := Lerp15by16(Grad16Xy(NoiseP(p, AB), xx, yy - N16), Grad16Xy(NoiseP(p, BB), xx - N16, yy - N16), u);
    Lerp15by16(X1, X2, v)
  }

  function Inoise16Raw1D(p: Table, e: Easing, x: u32): i16 {
    var X := Lattice16(x);
    var AA := NoiseP(p, NoiseP(p, X));
    var BA := NoiseP(p, NoiseP(p, X + 1));
    var xx := Half16(Frac16(x));
    var u := e.ease16(Frac16(x));
    Lerp15by16(Grad16X(NoiseP(p, AA), xx), Grad16X(NoiseP(p, BA), xx - N16), u)
  }

  /**
   * The unsigned mapping of the 3D and 4D kernels: add the bias in 32-bit
   * signed arithmetic, store as unsigned 32-bit, multiply by 440 (wrapping),
   * shift right by 8 and return the low 16 bits.
   */
  function Stretch3D(raw: i16): u16 {
    U16(U32(U32(raw + 19052) * 440) / 0x100)
  }

  /** The unsigned mapping of the 2D kernel, with bias 17308 and stretch 484. */
  function Stretch2D(raw: i16): u16 {
    U16(U32(U32(raw + 17308) * 484) / 0x100)
  }

  /** The unsigned mapping of the 1D kernel: bias 17308, then one left shift. */
  function Stretch1D(raw: i16): u16 {
    U16(U32(raw + 17308) * 2)
  }

  /**
   * The chain of 32-bit truncations in each mapping loses nothing that reaches
   * the returned 16 bits: each one equals the low 16 bits of the exact
   * integer expression.
   */
  lemma Stretch3DExact(raw: i16)
    ensures Stretch3D(raw) == (raw + 19052) * 440 / 0x100 % 0x1_0000
  {
    StretchLowBits(raw + 19052, 440);
  }

  lemma Stretch2DExact(raw: i16)
    ensures Stretch2D(raw) == (raw + 17308) * 484 / 0x100 % 0x1_0000
  {
    StretchLowBits(raw + 17308, 484);
  }

  lemma Stretch1DExact(raw: i16)
    ensures Stretch1D(raw) == (raw + 17308) * 2 % 0x1_0000
  {
    var w := raw + 17308;
    ModMulMod(w, 2, 0x1_0000_0000);
    ModMod(U32(w) * 2, 0x1_0000, 0x1_0000);
    ModMod(w * 2, 0x1_0000, 0x1_0000);
  }

  lemma StretchLowBits(a: int, c: int)
    ensures U16(U32(U32(a) * c) / 0x100) == a * c / 0x100 % 0x1_0000
  {
    var w := a * c;
    var X := U32(U32(a) * c);
    ModMulMod(a, c, 0x1_0000_0000);
    assert X == w % (0x100 * 0x100_0000);
    var D := X / 0x100;
    ModDivMod(w, 0x100, 0x100_0000);
    assert D % 0x100_0000 == (w / 0x100) % 0x100_0000;
    DivMonotone(X, 0xFFFF_FFFF, 0x100);
    ModSmall(D, 0x100_0000);
    ModMod(w / 0x100, 0x1_0000, 0x100);
    assert D % 0x1_0000 == (w / 0x100) % 0x1_0000;
  }

  function Inoise16_4D(p: Table, e: Easing, x: u32, y: u32, z: u32, t: u32): u16 {
    Stretch3D(Inoise16Raw4D(p, e, x, y, z, t))
  }

  function Inoise16_3D(p: Table, e: Easing, x: u32, y: u32, z: u32): u16 {
    Stretch3D(Inoise16Raw3D(p, e, x, y, z))
  }

  function Inoise16_2D(p: Table, e: Easing, x: u32, y: u32): u16 {
    Stretch2D(Inoise16Raw2D(p, e, x, y))
  }

  function Inoise16_1D(p: Table, e: Easing, x: u32): u16 {
    Stretch1D(Inoise16Raw1D(p, e, x))
  }

  // ---------------------------------------------------------------------
  // 8-bit noise: 8.8 fixed-point coordinates, signed raw result

  function Inoise8Raw3D(p: Table, e: Easing, x: u16, y: u16, z: u16): i8 {
    var X, Y, Z := Lattice8(x), Lattice8(y), Lattice8(z);
    var A := U8(NoiseP(p, X) + Y);
    var AA := U8(NoiseP(p, A) + Z);
    var AB := U8(NoiseP(p, A + 1) + Z);
    var B := U8(NoiseP(p, X + 1) + Y);
    var BA := U8(NoiseP(p, B) + Z);
    var BB := U8(NoiseP(p, B + 1) + Z);
    var xx, yy, zz := Half8(Frac8(x)), Half8(Frac8(y)), Half8(Frac8(z));
    var u, v, w := e.ease8(Frac8(x)), e.ease8(Frac8(y)), e.ease8(Frac8(z));
    var X1 := Lerp7by8(Grad8Xyz(NoiseP(p, AA), xx, yy, zz), Grad8Xyz(NoiseP(p, BA), xx - N8, yy, zz), u);
    var X2 := Lerp7by8(Grad8Xyz(NoiseP(p, AB), xx, yy - N8, zz), Grad8Xyz(NoiseP(p, BB), xx - N8, yy - N8, zz), u);
    var X3 := Lerp7by8(Grad8Xyz(NoiseP(p, AA + 1), xx, yy, zz - N8), Grad8Xyz(NoiseP(p, BA + 1), xx - N8, yy, zz - N8), u);
    var X4 := Lerp7by8(Grad8Xyz(NoiseP(p, AB + 1), xx, yy - N8, zz - N8), Grad8Xyz(NoiseP(p, BB + 1), xx - N8, yy - N8, zz - N8), u);
    var Y1 := Lerp7by8(X1, X2, v);
    var Y2 := Lerp7by8(X3, X4, v);
    Lerp7by8(Y1, Y2, w)
  }

  function Inoise8Raw2D(p: Table, e: Easing, x: u16, y: u16): i8 {
    var X, Y := Lattice8(x), Lattice8(y);
    var A := U8(NoiseP(p, X) + Y);
    var AA, AB := NoiseP(p, A), NoiseP(p, A + 1);
    var B := U8(NoiseP(p, X + 1) + Y);
    var BA, BB := NoiseP(p, B), NoiseP(p, B + 1);
    var xx, yy := Half8(Frac8(x)), Half8(Frac8(y));
    var u, v := e.ease8(Frac8(x)), e.ease8(Frac8(y));
    var X1 := Lerp7by8(Grad8Xy(NoiseP(p, AA), xx, yy), Grad8Xy(NoiseP(p, BA), xx - N8, yy), u);
    var X2 := Lerp7by8(Grad8Xy(NoiseP(p, AB), xx, yy - N8), Grad8Xy(NoiseP(p, BB), xx - N8, yy - N8), u);
    Lerp7by8(X1, X2, v)
  }

  function Inoise8Raw1D(p: Table, e: Easing, x: u16): i8 {
    var X := Lattice8(x);
    var AA := NoiseP(p, NoiseP(p, X));
    var BA := NoiseP(p, NoiseP(p, X + 1));
    var xx := Half8(Frac8(x));
    var u := e.ease8(Frac8(x));
    Lerp7by8(Grad8X(NoiseP(p, AA), xx), Grad8X(NoiseP(p, BA), xx - N8), u)
  }

  /**
   * The unsigned 8-bit mapping: add 64 in int8 arithmetic, then double with a
   * saturating add whose uint8 parameters reinterpret the sum.  For raw values
   * in [-64, 64] this is min(255, 2 * (raw + 64)), including raw == 64, whose
   * int8 sum wraps to -128 and is read back as 128.
   */
  function Lift8(raw: i8): (r: u8)
    ensures -64 <= raw <= 64 ==> r == Min(0xFF, 2 * (raw + 64))
  {
    var n := I8(raw + 64);
    Qadd8(U8(n), U8(n))
  }

  function Inoise8_3D(p: Table, e: Easing, x: u16, y: u16, z: u16): u8 {
    Lift8(Inoise8Raw3D(p, e, x, y, z))
  }

  function Inoise8_2D(p: Table, e: Easing, x: u16, y: u16): u8 {
    Lift8(Inoise8Raw2D(p, e, x, y))
  }

  function Inoise8_1D(p: Table, e: Easing, x: u16): u8 {
    Lift8(Inoise8Raw1D(p, e, x))
  }

  // ---------------------------------------------------------------------
  // High-resolution 8-bit noise: the top byte of the 16-bit noise at x << 8

  function Inoise8Hires3D(p: Table, e: Easing, x: u16, y: u16, z: u16): u8 {
    Inoise16_3D(p, e, x * 0x100, y * 0x100, z * 0x100) / 0x100
  }

  function Inoise8Hires2D(p: Table, e: Easing, x: u16, y: u16): u8 {
    Inoise16_2D(p, e, x * 0x100, y * 0x100) / 0x100
  }

  function Inoise8Hires1D(p: Table, e: Easing, x: u16): u8 {
    Inoise16_1D(p, e, x * 0x100) / 0x100
  }

  // ---------------------------------------------------------------------
  // Lattice points and the hires sampling grid

  /** The unsigned values the mappings give to raw values at and next to zero. */
  lemma MappedCentres()
    ensures Stretch3D(0) == 32745 && Stretch2D(0) == 32722
    ensures Stretch1D(-1) == 34614 && Stretch1D(0) == 34616 && Stretch1D(1) == 34618
    ensures Lift8(-1) == 126 && Lift8(0) == 128 && Lift8(1) == 130
  {
  }

  /**
   * Every gradient vanishes at the origin, except the one-dimensional ones,
   * which average the coordinate with +-1 for some hashes.
   */
  lemma Grad16XyzAtOrigin()
    ensures forall h: u8 :: Grad16Xyz(h, 0, 0, 0) == 0
  {
  }

  lemma Grad16XyAtOrigin()
    ensures forall h: u8 :: Grad16Xy(h, 0, 0) == 0
  {
  }

  lemma Grad16XAtOrigin()
    ensures forall h: u8 :: -1 <= Grad16X(h, 0) <= 1
  {
    forall h: u8
      ensures -1 <= Grad16X(h, 0) <= 1
    {
      var hh := h % 16;
      Neg16Unit(Bit(hh, 0), if hh > 8 then 0 else if hh < 4 then 0 else 1);
      Neg16Unit(Bit(hh, 1), if hh > 8 then 0 else if hh < 4 then 1 else 0);
    }
  }

  lemma Grad8XyzAtOrigin()
    ensures forall h: u8 :: Grad8Xyz(h, 0, 0, 0) == 0
  {
  }

  lemma Grad8XyAtOrigin()
    ensures forall h: u8 :: Grad8Xy(h, 0, 0) == 0
  {
  }

  lemma Grad8XAtOrigin()
    ensures forall h: u8 :: -1 <= Grad8X(h, 0) <= 1
  {
    forall h: u8
      ensures -1 <= Grad8X(h, 0) <= 1
    {
      Neg8Unit(Bit(h, 0), if Bit(h, 3) then 0 else if Bit(h, 2) then 1 else 0);
      Neg8Unit(Bit(h, 1), if Bit(h, 3) then 0 else if Bit(h, 2) then 0 else 1);
    }
  }

  /** Negation keeps -1, 0 and 1 where they are, without wrap-around. */
  lemma Neg8Unit(bit: bool, a: i8)
    requires -1 <= a <= 1
    ensures Neg8(bit, a) == if bit then -a else a
  {
    assert I8(-1) == -1 && I8(0) == 0 && I8(1) == 1;
  }

  lemma Neg16Unit(bit: bool, a: i16)
    requires -1 <= a <= 1
    ensures Neg16(bit, a) == if bit then -a else a
  {
    assert I16(-1) == -1 && I16(0) == 0 && I16(1) == 1;
  }

  /**
   * At a lattice point (every fraction zero) the eased fractions are zero,
   * every interpolation returns its first corner, and that corner's gradient
   * is evaluated at the origin: the raw noise is 0.  In one dimension the
   * gradient pairs the coordinate with the constant 1, so there the raw
   * noise is only within one of zero.
   */
  lemma LatticePoint3D(p: Table, e: Easing, x: u32, y: u32, z: u32)
    requires FixesZero(e)
    requires Frac16(x) == 0 && Frac16(y) == 0 && Frac16(z) == 0
    ensures Inoise16Raw3D(p, e, x, y, z) == 0
  {
    Grad16XyzAtOrigin();
    assert Half16(Frac16(x)) == 0 && Half16(Frac16(y)) == 0 && Half16(Frac16(z)) == 0;
  }

  /** ... and the unsigned noise there is the bias passed through the mapping. */
  lemma LatticeValue3D(p: Table, e: Easing, x: u32, y: u32, z: u32)
    requires FixesZero(e)
    requires Frac16(x) == 0 && Frac16(y) == 0 && Frac16(z) == 0
    ensures Inoise16_3D(p, e, x, y, z) == 32745
  {
    LatticePoint3D(p, e, x, y, z);
    MappedCentres();
    assert Inoise16_3D(p, e, x, y, z) == Stretch3D(Inoise16Raw3D(p, e, x, y, z));
  }

  lemma LatticePoint4D(p: Table, e: Easing, x: u32, y: u32, z: u32, t: u32)
    requires FixesZero(e)
    requires Frac16(x) == 0 && Frac16(y) == 0 && Frac16(z) == 0 && Frac16(t) == 0
    ensures Inoise16Raw4D(p, e, x, y, z, t) == 0
  {
    Grad16XyzAtOrigin();
    assert Half16(0) == 0;
  }

  /** ... and the unsigned noise there is the bias passed through the mapping. */
  lemma LatticeValue4D(p: Table, e: Easing, x: u32, y: u32, z: u32, t: u32)
    requires FixesZero(e)
    requires Frac16(x) == 0 && Frac16(y) == 0 && Frac16(z) == 0 && Frac16(t) == 0
    ensures Inoise16_4D(p, e, x, y, z, t) == 32745
  {
    LatticePoint4D(p, e, x, y, z, t);
    MappedCentres();
    assert Inoise16_4D(p, e, x, y, z, t) == Stretch3D(Inoise16Raw4D(p, e, x, y, z, t));
  }

  lemma LatticePoint2D(p: Table, e: Easing, x: u32, y: u32)
    requires FixesZero(e)
    requires Frac16(x) == 0 && Frac16(y) == 0
    ensures Inoise16Raw2D(p, e, x, y) == 0
  {
    Grad16XyAtOrigin();
    assert Half16(Frac16(x)) == 0 && Half16(Frac16(y)) == 0;
  }

  /** ... and the unsigned noise there is the bias passed through the mapping. */
  lemma LatticeValue2D(p: Table, e: Easing, x: u32, y: u32)
    requires FixesZero(e)
    requires Frac16(x) == 0 && Frac16(y) == 0
    ensures Inoise16_2D(p, e, x, y) == 32722
  {
    LatticePoint2D(p, e, x, y);
    MappedCentres();
    assert Inoise16_2D(p, e, x, y) == Stretch2D(Inoise16Raw2D(p, e, x, y));
  }

  lemma LatticePoint1D(p: Table, e: Easing, x: u32)
    requires FixesZero(e)
    requires Frac16(x) == 0
    ensures -1 <= Inoise16Raw1D(p, e, x) <= 1
  {
    Grad16XAtOrigin();
    assert Half16(Frac16(x)) == 0;
  }

  /** ... and the unsigned noise there is the bias passed through the mapping. */
  lemma LatticeValue1D(p: Table, e: Easing, x: u32)
    requires FixesZero(e)
    requires Frac16(x) == 0
    ensures Inoise16_1D(p, e, x) in {34614, 34616, 34618}
  {
    LatticePoint1D(p, e, x);
    var raw := Inoise16Raw1D(p, e, x);
    assert raw == -1 || raw == 0 || raw == 1;
    MappedCentres();
    assert Inoise16_1D(p, e, x) == Stretch1D(Inoise16Raw1D(p, e, x));
  }

  lemma LatticePoint8x3D(p: Table, e: Easing, x: u16, y: u16, z: u16)
    requires FixesZero(e)
    requires Frac8(x) == 0 && Frac8(y) == 0 && Frac8(z) == 0
    ensures Inoise8Raw3D(p, e, x, y, z) == 0
  {
    Grad8XyzAtOrigin();
    assert Half8(Frac8(x)) == 0 && Half8(Frac8(y)) == 0 && Half8(Frac8(z)) == 0;
  }

  /** ... and the unsigned noise there is the bias passed through the mapping. */
  lemma LatticeValue8x3D(p: Table, e: Easing, x: u16, y: u16, z: u16)
    requires FixesZero(e)
    requires Frac8(x) == 0 && Frac8(y) == 0 && Frac8(z) == 0
    ensures Inoise8_3D(p, e, x, y, z) == 128
  {
    LatticePoint8x3D(p, e, x, y, z);
    MappedCentres();
    assert Inoise8_3D(p, e, x, y, z) == Lift8(Inoise8Raw3D(p, e, x, y, z));
  }

  lemma LatticePoint8x2D(p: Table, e: Easing, x: u16, y: u16)
    requires FixesZero(e)
    requires Frac8(x) == 0 && Frac8(y) == 0
    ensures Inoise8Raw2D(p, e, x, y) == 0
  {
    Grad8XyAtOrigin();
    assert Half8(Frac8(x)) == 0 && Half8(Frac8(y)) == 0;
  }

  /** ... and the unsigned noise there is the bias passed through the mapping. */
  lemma LatticeValue8x2D(p: Table, e: Easing, x: u16, y: u16)
    requires FixesZero(e)
    requires Frac8(x) == 0 && Frac8(y) == 0
    ensures Inoise8_2D(p, e, x, y) == 128
  {
    LatticePoint8x2D(p, e, x, y);
    MappedCentres();
    assert Inoise8_2D(p, e, x, y) == Lift8(Inoise8Raw2D(p, e, x, y));
  }

  lemma LatticePoint8x1D(p: Table, e: Easing, x: u16)
    requires FixesZero(e)
    requires Frac8(x) == 0
    ensures -1 <= Inoise8Raw1D(p, e, x) <= 1
  {
    Grad8XAtOrigin();
    assert Half8(Frac8(x)) == 0;
  }

  /** ... and the unsigned noise there is the bias passed through the mapping. */
  lemma LatticeValue8x1D(p: Table, e: Easing, x: u16)
    requires FixesZero(e)
    requires Frac8(x) == 0
    ensures Inoise8_1D(p, e, x) in {126, 128, 130}
  {
    LatticePoint8x1D(p, e, x);
    var raw := Inoise8Raw1D(p, e, x);
    assert raw == -1 || raw == 0 || raw == 1;
    MappedCentres();
    assert Inoise8_1D(p, e, x) == Lift8(Inoise8Raw1D(p, e, x));
  }

  /**
   * The hires wrappers sample the 16-bit kernel at x << 8: the same lattice
   * cell as the 8-bit kernel at x, with the byte fraction widened to 16 bits.
   */
  lemma HiresSamplesSameCell(x: u16)
    ensures x * 0x100 < 0x1_0000_0000
    ensures Lattice16(x * 0x100) == Lattice8(x)
    ensures Frac16(x * 0x100) == Frac8(x) * 0x100
  {
  }

  // ---------------------------------------------------------------------
  // The noise functions as values, for the fills that sample them

  type Noise2D8 = (u16, u16) -> u8
  type Noise3D8 = (u16, u16, u16) -> u8
  type Noise2D16 = (u32, u32) -> u16
  type Noise3D16 = (u32, u32, u32) -> u16
}
