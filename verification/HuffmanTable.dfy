/** The HPACK code table (hc/huffmantable.go:9-267; appendix B of RFC 7541) and a
    certificate that it meets the requirements of Huffman.TableOk.

    Sorted by length and then by value, the codes of each length are consecutive
    numbers, and the first code of the next length is twice the number after the
    last.  So it is enough to find every code once in that order. */
module HuffmanTable {
  import opened Arith
  import opened Headers
  import opened Bits
  import opened BitIO
  import opened Huffman

  function Row0(j: nat): Code {
    match j
    case 0 => Code(13, 0x1ff8)
    case 1 => Code(23, 0x7fffd8)
    case 2 => Code(28, 0xfffffe2)
    case 3 => Code(28, 0xfffffe3)
    case 4 => Code(28, 0xfffffe4)
    case 5 => Code(28, 0xfffffe5)
    case 6 => Code(28, 0xfffffe6)
    case 7 => Code(28, 0xfffffe7)
    case 8 => Code(28, 0xfffffe8)
    case 9 => Code(24, 0xffffea)
    case 10 => Code(30, 0x3ffffffc)
    case 11 => Code(28, 0xfffffe9)
    case 12 => Code(28, 0xfffffea)
    case 13 => Code(30, 0x3ffffffd)
    case 14 => Code(28, 0xfffffeb)
    case _ => Code(28, 0xfffffec)
  }

  function Row1(j: nat): Code {
    match j
    case 0 => Code(28, 0xfffffed)
    case 1 => Code(28, 0xfffffee)
    case 2 => Code(28, 0xfffffef)
    case 3 => Code(28, 0xffffff0)
    case 4 => Code(28, 0xffffff1)
    case 5 => Code(28, 0xffffff2)
    case 6 => Code(30, 0x3ffffffe)
    case 7 => Code(28, 0xffffff3)
    case 8 => Code(28, 0xffffff4)
    case 9 => Code(28, 0xffffff5)
    case 10 => Code(28, 0xffffff6)
    case 11 => Code(28, 0xffffff7)
    case 12 => Code(28, 0xffffff8)
    case 13 => Code(28, 0xffffff9)
    case 14 => Code(28, 0xffffffa)
    case _ => Code(28, 0xffffffb)
  }

  function Row2(j: nat): Code {
    match j
    case 0 => Code(6, 0x14)
    case 1 => Code(10, 0x3f8)
    case 2 => Code(10, 0x3f9)
    case 3 => Code(12, 0xffa)
    case 4 => Code(13, 0x1ff9)
    case 5 => Code(6, 0x15)
    case 6 => Code(8, 0xf8)
    case 7 => Code(11, 0x7fa)
    case 8 => Code(10, 0x3fa)
    case 9 => Code(10, 0x3fb)
    case 10 => Code(8, 0xf9)
    case 11 => Code(11, 0x7fb)
    case 12 => Code(8, 0xfa)
    case 13 => Code(6, 0x16)
    case 14 => Code(6, 0x17)
    case _ => Code(6, 0x18)
  }

  function Row3(j: nat): Code {
    match j
    case 0 => Code(5, 0x0)
    case 1 => Code(5, 0x1)
    case 2 => Code(5, 0x2)
    case 3 => Code(6, 0x19)
    case 4 => Code(6, 0x1a)
    case 5 => Code(6, 0x1b)
    case 6 => Code(6, 0x1c)
    case 7 => Code(6, 0x1d)
    case 8 => Code(6, 0x1e)
    case 9 => Code(6, 0x1f)
    case 10 => Code(7, 0x5c)
    case 11 => Code(8, 0xfb)
    case 12 => Code(15, 0x7ffc)
    case 13 => Code(6, 0x20)
    case 14 => Code(12, 0xffb)
    case _ => Code(10, 0x3fc)
  }

  function Row4(j: nat): Code {
    match j
    case 0 => Code(13, 0x1ffa)
    case 1 => Code(6, 0x21)
    case 2 => Code(7, 0x5d)
    case 3 => Code(7, 0x5e)
    case 4 => Code(7, 0x5f)
    case 5 => Code(7, 0x60)
    case 6 => Code(7, 0x61)
    case 7 => Code(7, 0x62)
    case 8 => Code(7, 0x63)
    case 9 => Code(7, 0x64)
    case 10 => Code(7, 0x65)
    case 11 => Code(7, 0x66)
    case 12 => Code(7, 0x67)
    case 13 => Code(7, 0x68)
    case 14 => Code(7, 0x69)
    case _ => Code(7, 0x6a)
  }

  function Row5(j: nat): Code {
    match j
    case 0 => Code(7, 0x6b)
    case 1 => Code(7, 0x6c)
    case 2 => Code(7, 0x6d)
    case 3 => Code(7, 0x6e)
    case 4 => Code(7, 0x6f)
    case 5 => Code(7, 0x70)
    case 6 => Code(7, 0x71)
    case 7 => Code(7, 0x72)
    case 8 => Code(8, 0xfc)
    case 9 => Code(7, 0x73)
    case 10 => Code(8, 0xfd)
    case 11 => Code(13, 0x1ffb)
    case 12 => Code(19, 0x7fff0)
    case 13 => Code(13, 0x1ffc)
    case 14 => Code(14, 0x3ffc)
    case _ => Code(6, 0x22)
  }

  function Row6(j: nat): Code {
    match j
    case 0 => Code(15, 0x7ffd)
    case 1 => Code(5, 0x3)
    case 2 => Code(6, 0x23)
    case 3 => Code(5, 0x4)
    case 4 => Code(6, 0x24)
    case 5 => Code(5, 0x5)
    case 6 => Code(6, 0x25)
    case 7 => Code(6, 0x26)
    case 8 => Code(6, 0x27)
    case 9 => Code(5, 0x6)
    case 10 => Code(7, 0x74)
    case 11 => Code(7, 0x75)
    case 12 => Code(6, 0x28)
    case 13 => Code(6, 0x29)
    case 14 => Code(6, 0x2a)
    case _ => Code(5, 0x7)
  }

  function Row7(j: nat): Code {
    match j
    case 0 => Code(6, 0x2b)
    case 1 => Code(7, 0x76)
    case 2 => Code(6, 0x2c)
    case 3 => Code(5, 0x8)
    case 4 => Code(5, 0x9)
    case 5 => Code(6, 0x2d)
    case 6 => Code(7, 0x77)
    case 7 => Code(7, 0x78)
    case 8 => Code(7, 0x79)
    case 9 => Code(7, 0x7a)
    case 10 => Code(7, 0x7b)
    case 11 => Code(15, 0x7ffe)
    case 12 => Code(11, 0x7fc)
    case 13 => Code(14, 0x3ffd)
    case 14 => Code(13, 0x1ffd)
    case _ => Code(28, 0xffffffc)
  }

  function Row8(j: nat): Code {
    match j
    case 0 => Code(20, 0xfffe6)
    case 1 => Code(22, 0x3fffd2)
    case 2 => Code(20, 0xfffe7)
    case 3 => Code(20, 0xfffe8)
    case 4 => Code(22, 0x3fffd3)
    case 5 => Code(22, 0x3fffd4)
    case 6 => Code(22, 0x3fffd5)
    case 7 => Code(23, 0x7fffd9)
    case 8 => Code(22, 0x3fffd6)
    case 9 => Code(23, 0x7fffda)
    case 10 => Code(23, 0x7fffdb)
    case 11 => Code(23, 0x7fffdc)
    case 12 => Code(23, 0x7fffdd)
    case 13 => Code(23, 0x7fffde)
    case 14 => Code(24, 0xffffeb)
    case _ => Code(23, 0x7fffdf)
  }

  function Row9(j: nat): Code {
    match j
    case 0 => Code(24, 0xffffec)
    case 1 => Code(24, 0xffffed)
    case 2 => Code(22, 0x3fffd7)
    case 3 => Code(23, 0x7fffe0)
    case 4 => Code(24, 0xffffee)
    case 5 => Code(23, 0x7fffe1)
    case 6 => Code(23, 0x7fffe2)
    case 7 => Code(23, 0x7fffe3)
    case 8 => Code(23, 0x7fffe4)
    case 9 => Code(21, 0x1fffdc)
    case 10 => Code(22, 0x3fffd8)
    case 11 => Code(23, 0x7fffe5)
    case 12 => Code(22, 0x3fffd9)
    case 13 => Code(23, 0x7fffe6)
    case 14 => Code(23, 0x7fffe7)
    case _ => Code(24, 0xffffef)
  }

  function Row10(j: nat): Code {
    match j
    case 0 => Code(22, 0x3fffda)
    case 1 => Code(21, 0x1fffdd)
    case 2 => Code(20, 0xfffe9)
    case 3 => Code(22, 0x3fffdb)
    case 4 => Code(22, 0x3fffdc)
    case 5 => Code(23, 0x7fffe8)
    case 6 => Code(23, 0x7fffe9)
    case 7 => Code(21, 0x1fffde)
    case 8 => Code(23, 0x7fffea)
    case 9 => Code(22, 0x3fffdd)
    case 10 => Code(22, 0x3fffde)
    case 11 => Code(24, 0xfffff0)
    case 12 => Code(21, 0x1fffdf)
    case 13 => Code(22, 0x3fffdf)
    case 14 => Code(23, 0x7fffeb)
    case _ => Code(23, 0x7fffec)
  }

  function Row11(j: nat): Code {
    match j
    case 0 => Code(21, 0x1fffe0)
    case 1 => Code(21, 0x1fffe1)
    case 2 => Code(22, 0x3fffe0)
    case 3 => Code(21, 0x1fffe2)
    case 4 => Code(23, 0x7fffed)
    case 5 => Code(22, 0x3fffe1)
    case 6 => Code(23, 0x7fffee)
    case 7 => Code(23, 0x7fffef)
    case 8 => Code(20, 0xfffea)
    case 9 => Code(22, 0x3fffe2)
    case 10 => Code(22, 0x3fffe3)
    case 11 => Code(22, 0x3fffe4)
    case 12 => Code(23, 0x7ffff0)
    case 13 => Code(22, 0x3fffe5)
    case 14 => Code(22, 0x3fffe6)
    case _ => Code(23, 0x7ffff1)
  }

  function Row12(j: nat): Code {
    match j
    case 0 => Code(26, 0x3ffffe0)
    case 1 => Code(26, 0x3ffffe1)
    case 2 => Code(20, 0xfffeb)
    case 3 => Code(19, 0x7fff1)
    case 4 => Code(22, 0x3fffe7)
    case 5 => Code(23, 0x7ffff2)
    case 6 => Code(22, 0x3fffe8)
    case 7 => Code(25, 0x1ffffec)
    case 8 => Code(26, 0x3ffffe2)
    case 9 => Code(26, 0x3ffffe3)
    case 10 => Code(26, 0x3ffffe4)
    case 11 => Code(27, 0x7ffffde)
    case 12 => Code(27, 0x7ffffdf)
    case 13 => Code(26, 0x3ffffe5)
    case 14 => Code(24, 0xfffff1)
    case _ => Code(25, 0x1ffffed)
  }

  function Row13(j: nat): Code {
    match j
    case 0 => Code(19, 0x7fff2)
    case 1 => Code(21, 0x1fffe3)
    case 2 => Code(26, 0x3ffffe6)
    case 3 => Code(27, 0x7ffffe0)
    case 4 => Code(27, 0x7ffffe1)
    case 5 => Code(26, 0x3ffffe7)
    case 6 => Code(27, 0x7ffffe2)
    case 7 => Code(24, 0xfffff2)
    case 8 => Code(21, 0x1fffe4)
    case 9 => Code(21, 0x1fffe5)
    case 10 => Code(26, 0x3ffffe8)
    case 11 => Code(26, 0x3ffffe9)
    case 12 => Code(28, 0xffffffd)
    case 13 => Code(27, 0x7ffffe3)
    case 14 => Code(27, 0x7ffffe4)
    case _ => Code(27, 0x7ffffe5)
  }

  function Row14(j: nat): Code {
    match j
    case 0 => Code(20, 0xfffec)
    case 1 => Code(24, 0xfffff3)
    case 2 => Code(20, 0xfffed)
    case 3 => Code(21, 0x1fffe6)
    case 4 => Code(22, 0x3fffe9)
    case 5 => Code(21, 0x1fffe7)
    case 6 => Code(21, 0x1fffe8)
    case 7 => Code(23, 0x7ffff3)
    case 8 => Code(22, 0x3fffea)
    case 9 => Code(22, 0x3fffeb)
    case 10 => Code(25, 0x1ffffee)
    case 11 => Code(25, 0x1ffffef)
    case 12 => Code(24, 0xfffff4)
    case 13 => Code(24, 0xfffff5)
    case 14 => Code(26, 0x3ffffea)
    case _ => Code(23, 0x7ffff4)
  }

  function Row15(j: nat): Code {
    match j
    case 0 => Code(26, 0x3ffffeb)
    case 1 => Code(27, 0x7ffffe6)
    case 2 => Code(26, 0x3ffffec)
    case 3 => Code(26, 0x3ffffed)
    case 4 => Code(27, 0x7ffffe7)
    case 5 => Code(27, 0x7ffffe8)
    case 6 => Code(27, 0x7ffffe9)
    case 7 => Code(27, 0x7ffffea)
    case 8 => Code(27, 0x7ffffeb)
    case 9 => Code(28, 0xffffffe)
    case 10 => Code(27, 0x7ffffec)
    case 11 => Code(27, 0x7ffffed)
    case 12 => Code(27, 0x7ffffee)
    case 13 => Code(27, 0x7ffffef)
    case 14 => Code(27, 0x7fffff0)
    case _ => Code(26, 0x3ffffee)
  }

  function CodeOf(i: nat): Code {
    match i / 16
    case 0 => Row0(i % 16)
    case 1 => Row1(i % 16)
    case 2 => Row2(i % 16)
    case 3 => Row3(i % 16)
    case 4 => Row4(i % 16)
    case 5 => Row5(i % 16)
    case 6 => Row6(i % 16)
    case 7 => Row7(i % 16)
    case 8 => Row8(i % 16)
    case 9 => Row9(i % 16)
    case 10 => Row10(i % 16)
    case 11 => Row11(i % 16)
    case 12 => Row12(i % 16)
    case 13 => Row13(i % 16)
    case 14 => Row14(i % 16)
    case _ => Row15(i % 16)
  }

  const CODES: Table := seq(256, i requires 0 <= i < 256 => CodeOf(i))

  /** The first code of each length, and how many there are. */
  function First(len: nat): nat {
    match len
    case 5 => 0x0
    case 6 => 0x14
    case 7 => 0x5c
    case 8 => 0xf8
    case 9 => 0x1fc
    case 10 => 0x3f8
    case 11 => 0x7fa
    case 12 => 0xffa
    case 13 => 0x1ff8
    case 14 => 0x3ffc
    case 15 => 0x7ffc
    case 16 => 0xfffe
    case 17 => 0x1fffc
    case 18 => 0x3fff8
    case 19 => 0x7fff0
    case 20 => 0xfffe6
    case 21 => 0x1fffdc
    case 22 => 0x3fffd2
    case 23 => 0x7fffd8
    case 24 => 0xffffea
    case 25 => 0x1ffffec
    case 26 => 0x3ffffe0
    case 27 => 0x7ffffde
    case 28 => 0xfffffe2
    case 29 => 0x1ffffffe
    case _ => 0x3ffffffc
  }

  function Count(len: nat): nat {
    match len
    case 5 => 10
    case 6 => 26
    case 7 => 32
    case 8 => 6
    case 10 => 5
    case 11 => 3
    case 12 => 2
    case 13 => 6
    case 14 => 2
    case 15 => 3
    case 19 => 3
    case 20 => 8
    case 21 => 13
    case 22 => 26
    case 23 => 29
    case 24 => 12
    case 25 => 4
    case 26 => 15
    case 27 => 19
    case 28 => 29
    case 30 => 3
    case _ => 0
  }

  /** The octets in the order of their codes. */
  function Order5(n: nat): nat {
    match n
    case 0 => 48
    case 1 => 49
    case 2 => 50
    case 3 => 97
    case 4 => 99
    case 5 => 101
    case 6 => 105
    case 7 => 111
    case 8 => 115
    case _ => 116
  }

  function Order6(n: nat): nat {
    match n
    case 0 => 32
    case 1 => 37
    case 2 => 45
    case 3 => 46
    case 4 => 47
    case 5 => 51
    case 6 => 52
    case 7 => 53
    case 8 => 54
    case 9 => 55
    case 10 => 56
    case 11 => 57
    case 12 => 61
    case 13 => 65
    case 14 => 95
    case 15 => 98
    case 16 => 100
    case 17 => 102
    case 18 => 103
    case 19 => 104
    case 20 => 108
    case 21 => 109
    case 22 => 110
    case 23 => 112
    case 24 => 114
    case _ => 117
  }

  function Order7(n: nat): nat {
    match n
    case 0 => 58
    case 1 => 66
    case 2 => 67
    case 3 => 68
    case 4 => 69
    case 5 => 70
    case 6 => 71
    case 7 => 72
    case 8 => 73
    case 9 => 74
    case 10 => 75
    case 11 => 76
    case 12 => 77
    case 13 => 78
    case 14 => 79
    case 15 => 80
    case 16 => 81
    case 17 => 82
    case 18 => 83
    case 19 => 84
    case 20 => 85
    case 21 => 86
    case 22 => 87
    case 23 => 89
    case 24 => 106
    case 25 => 107
    case 26 => 113
    case 27 => 118
    case 28 => 119
    case 29 => 120
    case 30 => 121
    case _ => 122
  }

  function Order8(n: nat): nat {
    match n
    case 0 => 38
    case 1 => 42
    case 2 => 44
    case 3 => 59
    case 4 => 88
    case _ => 90
  }

  function Order10(n: nat): nat {
    match n
    case 0 => 33
    case 1 => 34
    case 2 => 40
    case 3 => 41
    case _ => 63
  }

  function Order11(n: nat): nat {
    match n
    case 0 => 39
    case 1 => 43
    case _ => 124
  }

  function Order12(n: nat): nat {
    match n
    case 0 => 35
    case _ => 62
  }

  function Order13(n: nat): nat {
    match n
    case 0 => 0
    case 1 => 36
    case 2 => 64
    case 3 => 91
    case 4 => 93
    case _ => 126
  }

  function Order14(n: nat): nat {
    match n
    case 0 => 94
    case _ => 125
  }

  function Order15(n: nat): nat {
    match n
    case 0 => 60
    case 1 => 96
    case _ => 123
  }

  function Order19(n: nat): nat {
    match n
    case 0 => 92
    case 1 => 195
    case _ => 208
  }

  function Order20(n: nat): nat {
    match n
    case 0 => 128
    case 1 => 130
    case 2 => 131
    case 3 => 162
    case 4 => 184
    case 5 => 194
    case 6 => 224
    case _ => 226
  }

  function Order21(n: nat): nat {
    match n
    case 0 => 153
    case 1 => 161
    case 2 => 167
    case 3 => 172
    case 4 => 176
    case 5 => 177
    case 6 => 179
    case 7 => 209
    case 8 => 216
    case 9 => 217
    case 10 => 227
    case 11 => 229
    case _ => 230
  }

  function Order22(n: nat): nat {
    match n
    case 0 => 129
    case 1 => 132
    case 2 => 133
    case 3 => 134
    case 4 => 136
    case 5 => 146
    case 6 => 154
    case 7 => 156
    case 8 => 160
    case 9 => 163
    case 10 => 164
    case 11 => 169
    case 12 => 170
    case 13 => 173
    case 14 => 178
    case 15 => 181
    case 16 => 185
    case 17 => 186
    case 18 => 187
    case 19 => 189
    case 20 => 190
    case 21 => 196
    case 22 => 198
    case 23 => 228
    case 24 => 232
    case _ => 233
  }

  function Order23(n: nat): nat {
    match n
    case 0 => 1
    case 1 => 135
    case 2 => 137
    case 3 => 138
    case 4 => 139
    case 5 => 140
    case 6 => 141
    case 7 => 143
    case 8 => 147
    case 9 => 149
    case 10 => 150
    case 11 => 151
    case 12 => 152
    case 13 => 155
    case 14 => 157
    case 15 => 158
    case 16 => 165
    case 17 => 166
    case 18 => 168
    case 19 => 174
    case 20 => 175
    case 21 => 180
    case 22 => 182
    case 23 => 183
    case 24 => 188
    case 25 => 191
    case 26 => 197
    case 27 => 231
    case _ => 239
  }

  function Order24(n: nat): nat {
    match n
    case 0 => 9
    case 1 => 142
    case 2 => 144
    case 3 => 145
    case 4 => 148
    case 5 => 159
    case 6 => 171
    case 7 => 206
    case 8 => 215
    case 9 => 225
    case 10 => 236
    case _ => 237
  }

  function Order25(n: nat): nat {
    match n
    case 0 => 199
    case 1 => 207
    case 2 => 234
    case _ => 235
  }

  function Order26(n: nat): nat {
    match n
    case 0 => 192
    case 1 => 193
    case 2 => 200
    case 3 => 201
    case 4 => 202
    case 5 => 205
    case 6 => 210
    case 7 => 213
    case 8 => 218
    case 9 => 219
    case 10 => 238
    case 11 => 240
    case 12 => 242
    case 13 => 243
    case _ => 255
  }

  function Order27(n: nat): nat {
    match n
    case 0 => 203
    case 1 => 204
    case 2 => 211
    case 3 => 212
    case 4 => 214
    case 5 => 221
    case 6 => 222
    case 7 => 223
    case 8 => 241
    case 9 => 244
    case 10 => 245
    case 11 => 246
    case 12 => 247
    case 13 => 248
    case 14 => 250
    case 15 => 251
    case 16 => 252
    case 17 => 253
    case _ => 254
  }

  function Order28(n: nat): nat {
    match n
    case 0 => 2
    case 1 => 3
    case 2 => 4
    case 3 => 5
    case 4 => 6
    case 5 => 7
    case 6 => 8
    case 7 => 11
    case 8 => 12
    case 9 => 14
    case 10 => 15
    case 11 => 16
    case 12 => 17
    case 13 => 18
    case 14 => 19
    case 15 => 20
    case 16 => 21
    case 17 => 23
    case 18 => 24
    case 19 => 25
    case 20 => 26
    case 21 => 27
    case 22 => 28
    case 23 => 29
    case 24 => 30
    case 25 => 31
    case 26 => 127
    case 27 => 220
    case _ => 249
  }

  function Order30(n: nat): nat {
    match n
    case 0 => 10
    case 1 => 13
    case _ => 22
  }

  /** The octet whose code is number `n` among those of length `len`. */
  function Order(len: nat, n: nat): nat {
    match len
    case 5 => Order5(n)
    case 6 => Order6(n)
    case 7 => Order7(n)
    case 8 => Order8(n)
    case 10 => Order10(n)
    case 11 => Order11(n)
    case 12 => Order12(n)
    case 13 => Order13(n)
    case 14 => Order14(n)
    case 15 => Order15(n)
    case 19 => Order19(n)
    case 20 => Order20(n)
    case 21 => Order21(n)
    case 22 => Order22(n)
    case 23 => Order23(n)
    case 24 => Order24(n)
    case 25 => Order25(n)
    case 26 => Order26(n)
    case 27 => Order27(n)
    case 28 => Order28(n)
    case _ => Order30(n)
  }

  /** The code of octet `i` is where the order puts it. */
  predicate Placed(c: Code, i: nat) {
    && 5 <= c.len <= 30 && First(c.len) <= c.val < First(c.len) + Count(c.len)
    && Order(c.len, c.val - First(c.len)) == i
  }

  lemma Placed0(i: nat)
    requires 0 <= i < 32
    ensures Placed(CodeOf(i), i)
  {
  }

  lemma Placed1(i: nat)
    requires 32 <= i < 64
    ensures Placed(CodeOf(i), i)
  {
  }

  lemma Placed2(i: nat)
    requires 64 <= i < 96
    ensures Placed(CodeOf(i), i)
  {
  }

  lemma Placed3(i: nat)
    requires 96 <= i < 128
    ensures Placed(CodeOf(i), i)
  {
  }

  lemma Placed4(i: nat)
    requires 128 <= i < 160
    ensures Placed(CodeOf(i), i)
  {
  }

  lemma Placed5(i: nat)
    requires 160 <= i < 192
    ensures Placed(CodeOf(i), i)
  {
  }

  lemma Placed6(i: nat)
    requires 192 <= i < 224
    ensures Placed(CodeOf(i), i)
  {
  }

  lemma Placed7(i: nat)
    requires 224 <= i < 256
    ensures Placed(CodeOf(i), i)
  {
  }

  lemma AllPlaced(i: nat)
    requires i < 256
    ensures Placed(CodeOf(i), i)
  {
    match i / 32
    case 0 => Placed0(i);
    case 1 => Placed1(i);
    case 2 => Placed2(i);
    case 3 => Placed3(i);
    case 4 => Placed4(i);
    case 5 => Placed5(i);
    case 6 => Placed6(i);
    case _ => Placed7(i);
  }

  /** Codes of the next length begin after all extensions of these. */
  lemma NextFirst(len: nat)
    requires 5 <= len < 30
    ensures First(len + 1) == 2 * (First(len) + Count(len))
  {
  }

  lemma {:induction false} LaterFirst(len: nat, more: nat)
    requires 5 <= len && 0 < more && len + more <= 30
    ensures First(len + more) >= (First(len) + Count(len)) * Pow2(more)
  {
    hide First, Count;
    var a, p := First(len) + Count(len), Pow2(more - 1);
    NextFirst(len + more - 1);
    if more > 1 {
      LaterFirst(len, more - 1);
      assert 2 * (a * p) == a * (2 * p);
    }
  }

  lemma {:induction false} ValuesFit(len: nat)
    requires 5 <= len <= 30
    ensures First(len) + Count(len) <= Pow2(len)
    decreases 30 - len
  {
    if len < 30 {
      hide First, Count;
      ValuesFit(len + 1);
      NextFirst(len);
    } else {
      Powers();
    }
  }

  /** No code starts another: a longer one is past every extension of the codes of
      the shorter length, and the order finds codes of equal length apart. */
  lemma Distinct(i: nat, j: nat)
    requires i < 256 && j < 256 && CODES[i].Bits() <= CODES[j].Bits()
    ensures i == j
  {
    hide First, Count, Order, CodeOf, Shr, ToBits, Pow2;
    var c, d := CODES[i], CODES[j];
    AllPlaced(i);
    AllPlaced(j);
    ValuesFit(c.len);
    ValuesFit(d.len);
    var m := d.len - c.len;
    ToBitsPrefix(d.val, d.len, c.len);
    assert ToBits(Shr(d.val, m), c.len) == ToBits(c.val, c.len);
    ShrFits(d.val, c.len, m);
    ToBitsInjective(Shr(d.val, m), c.val, c.len);
    if m == 0 {
      ShrZero(d.val);
    } else {
      LaterFirst(c.len, m);
      ShrLow(d.val, m);
      TooFar(c.val, First(c.len) + Count(c.len), Pow2(m), d.val, Low(d.val, m));
    }
  }

  lemma Ascends(len: nat, n: nat)
    requires 5 <= len <= 30 && n + 1 < Count(len)
    ensures Order(len, n) < Order(len, n + 1)
  {
  }

  lemma {:induction false} OrderAscends(len: nat, m: nat, n: nat)
    requires 5 <= len <= 30 && m < n < Count(len)
    ensures Order(len, m) < Order(len, n)
  {
    hide Order, Count;
    Ascends(len, n - 1);
    if m < n - 1 {
      OrderAscends(len, m, n - 1);
    }
  }

  /** The code is canonical: of two octets with codes of one length the smaller octet has
      the smaller code, and a longer code is past every extension of a shorter one.  The
      lengths leave no choice beyond that. */
  lemma Canonical(i: nat, j: nat)
    requires i < 256 && j < 256
    ensures CODES[i].len == CODES[j].len ==> (i < j <==> CODES[i].val < CODES[j].val)
    ensures CODES[i].len < CODES[j].len ==> (CODES[i].val + 1) * Pow2(CODES[j].len - CODES[i].len) <= CODES[j].val
  {
    hide First, Count, Order, CodeOf, Pow2;
    var c, d := CODES[i], CODES[j];
    AllPlaced(i);
    AllPlaced(j);
    if c.len < d.len {
      LaterFirst(c.len, d.len - c.len);
      MulMonotone(c.val + 1, First(c.len) + Count(c.len), Pow2(d.len - c.len));
    } else if c.len == d.len {
      var m, n := c.val - First(c.len), d.val - First(c.len);
      if m < n {
        OrderAscends(c.len, m, n);
      } else if n < m {
        OrderAscends(c.len, n, m);
      }
    }
  }

  lemma ShrZero(v: nat)
    ensures Shr(v, 0) == v
  {
  }

  /** `v == a * p + r` is below `b * p` if `a < b`. */
  lemma TooFar(a: nat, b: nat, p: nat, v: nat, r: nat)
    requires p > 0 && a < b && v == a * p + r && r < p
    ensures v < b * p
  {
    MulStep(a, b, p);
  }

  /** The table in use satisfies every requirement. */
  lemma CodesMeetRequirements()
    ensures TableOk(CODES)
  {
    hide First, Count, Order, CodeOf;
    forall i | 0 <= i < 256 ensures 5 <= CODES[i].len <= 30 && CODES[i].val < Pow2(CODES[i].len) {
      AllPlaced(i);
      ValuesFit(CODES[i].len);
    }
    forall i, j | 0 <= i < 256 && 0 <= j < 256 && CODES[i].Bits() <= CODES[j].Bits() ensures i == j {
      Distinct(i, j);
    }
    assert Extends(CODES, OneBits(7)) by { PaddingContinues(); }
  }

  lemma PaddingContinues()
    ensures Extends(CODES, OneBits(7))
  {
    assert CODES[0] == Code(13, 0x1ff8);
    hide CodeOf;
    ToBitsPrefix(0x1ff8, 13, 7);
    SevenOnes();
    assert Starts(CODES[0], OneBits(7));
  }

  lemma SevenOnes()
    ensures Shr(0x1ff8, 6) == 127 && ToBits(127, 7) == OneBits(7)
  {
  }

  /** initDecompressorTree: the tree for the table in use. */
  method DecompressorTree() returns (root: Node)
    ensures Tree(CODES, [], root)
  {
    hide TableOk, Tree, CodeOf;
    CodesMeetRequirements();
    CodesReady();
    root := MakeLayer(CODES, 0, 0);
  }

  lemma CodesReady()
    requires TableOk(CODES)
    ensures CodesOk(CODES) && ToBits(0, 0) == [] && forall i :: 0 <= i < |CODES| ==> CODES[i].Bits() != []
  {
    hide CodeOf;
  }

  /** Every octet string survives compression with the table in use, whatever padding
      follows it in its last octet. */
  lemma CodesInflate(root: Node, s: Str, k: nat)
    requires Tree(CODES, [], root) && k <= 7
    ensures Inflate(root, root, Compress(CODES, s) + OneBits(k)) == Ok(s)
  {
    hide TableOk, Tree, CodeOf, Inflate, Compress;
    CodesMeetRequirements();
    InflateCompress(CODES, root, s, k);
  }
}
