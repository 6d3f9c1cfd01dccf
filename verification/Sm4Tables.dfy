/** The tables that YS_Sm4 and YS_Islam ship, and what they are made of. */
module Sm4Tables {
  import opened Octets
  import opened BlockCipher
  import opened Sm4Standard

  const FK: seq<Word> := [0xa3b1bac6, 0x56aa3350, 0x677d9197, 0xb27022dc]

  const CK: seq<Word> := [
    0x00070e15, 0x1c232a31, 0x383f464d, 0x545b6269, 0x70777e85, 0x8c939aa1,
    0xa8afb6bd, 0xc4cbd2d9, 0xe0e7eef5, 0xfc030a11, 0x181f262d, 0x343b4249,
    0x50575e65, 0x6c737a81, 0x888f969d, 0xa4abb2b9, 0xc0c7ced5, 0xdce3eaf1,
    0xf8ff060d, 0x141b2229, 0x30373e45, 0x4c535a61, 0x686f767d, 0x848b9299,
    0xa0a7aeb5, 0xbcc3cad1, 0xd8dfe6ed, 0xf4fb0209, 0x10171e25, 0x2c333a41,
    0x484f565d, 0x646b7279]

  /** The substitution box of YS_Sm4. */
  function S(b: Octet): Octet
  {
    if b < 0x10 then S0(b)
    else if b < 0x20 then S1(b)
    else if b < 0x30 then S2(b)
    else if b < 0x40 then S3(b)
    else if b < 0x50 then S4(b)
    else if b < 0x60 then S5(b)
    else if b < 0x70 then S6(b)
    else if b < 0x80 then S7(b)
    else if b < 0x90 then S8(b)
    else if b < 0xa0 then S9(b)
    else if b < 0xb0 then SA(b)
    else if b < 0xc0 then SB(b)
    else if b < 0xd0 then SC(b)
    else if b < 0xe0 then SD(b)
    else if b < 0xf0 then SE(b)
    else SF(b)
  }

  function S0(b: Octet): Octet
  {
    if b == 0x00 then 0xd6 else if b == 0x01 then 0x90 else if b == 0x02 then 0xe9 else if b == 0x03 then 0xfe else
    if b == 0x04 then 0xcc else if b == 0x05 then 0xe1 else if b == 0x06 then 0x3d else if b == 0x07 then 0xb7 else
    if b == 0x08 then 0x16 else if b == 0x09 then 0xb6 else if b == 0x0a then 0x14 else if b == 0x0b then 0xc2 else
    if b == 0x0c then 0x28 else if b == 0x0d then 0xfb else if b == 0x0e then 0x2c else 0x05
  }

  function S1(b: Octet): Octet
  {
    if b == 0x10 then 0x2b else if b == 0x11 then 0x67 else if b == 0x12 then 0x9a else if b == 0x13 then 0x76 else
    if b == 0x14 then 0x2a else if b == 0x15 then 0xbe else if b == 0x16 then 0x04 else if b == 0x17 then 0xc3 else
    if b == 0x18 then 0xaa else if b == 0x19 then 0x44 else if b == 0x1a then 0x13 else if b == 0x1b then 0x26 else
    if b == 0x1c then 0x49 else if b == 0x1d then 0x86 else if b == 0x1e then 0x06 else 0x99
  }

  function S2(b: Octet): Octet
  {
    if b == 0x20 then 0x9c else if b == 0x21 then 0x42 else if b == 0x22 then 0x50 else if b == 0x23 then 0xf4 else
    if b == 0x24 then 0x91 else if b == 0x25 then 0xef else if b == 0x26 then 0x98 else if b == 0x27 then 0x7a else
    if b == 0x28 then 0x33 else if b == 0x29 then 0x54 else if b == 0x2a then 0x0b else if b == 0x2b then 0x43 else
    if b == 0x2c then 0xed else if b == 0x2d then 0xcf else if b == 0x2e then 0xac else 0x62
  }

  function S3(b: Octet): Octet
  {
    if b == 0x30 then 0xe4 else if b == 0x31 then 0xb3 else if b == 0x32 then 0x1c else if b == 0x33 then 0xa9 else
    if b == 0x34 then 0xc9 else if b == 0x35 then 0x08 else if b == 0x36 then 0xe8 else if b == 0x37 then 0x95 else
    if b == 0x38 then 0x80 else if b == 0x39 then 0xdf else if b == 0x3a then 0x94 else if b == 0x3b then 0xfa else
    if b == 0x3c then 0x75 else if b == 0x3d then 0x8f else if b == 0x3e then 0x3f else 0xa6
  }

  function S4(b: Octet): Octet
  {
    if b == 0x40 then 0x47 else if b == 0x41 then 0x07 else if b == 0x42 then 0xa7 else if b == 0x43 then 0xfc else
    if b == 0x44 then 0xf3 else if b == 0x45 then 0x73 else if b == 0x46 then 0x17 else if b == 0x47 then 0xba else
    if b == 0x48 then 0x83 else if b == 0x49 then 0x59 else if b == 0x4a then 0x3c else if b == 0x4b then 0x19 else
    if b == 0x4c then 0xe6 else if b == 0x4d then 0x85 else if b == 0x4e then 0x4f else 0xa8
  }

  function S5(b: Octet): Octet
  {
    if b == 0x50 then 0x68 else if b == 0x51 then 0x6b else if b == 0x52 then 0x81 else if b == 0x53 then 0xb2 else
    if b == 0x54 then 0x71 else if b == 0x55 then 0x64 else if b == 0x56 then 0xda else if b == 0x57 then 0x8b else
    if b == 0x58 then 0xf8 else if b == 0x59 then 0xeb else if b == 0x5a then 0x0f else if b == 0x5b then 0x4b else
    if b == 0x5c then 0x70 else if b == 0x5d then 0x56 else if b == 0x5e then 0x9d else 0x35
  }

  function S6(b: Octet): Octet
  {
    if b == 0x60 then 0x1e else if b == 0x61 then 0x24 else if b == 0x62 then 0x0e else if b == 0x63 then 0x5e else
    if b == 0x64 then 0x63 else if b == 0x65 then 0x58 else if b == 0x66 then 0xd1 else if b == 0x67 then 0xa2 else
    if b == 0x68 then 0x25 else if b == 0x69 then 0x22 else if b == 0x6a then 0x7c else if b == 0x6b then 0x3b else
    if b == 0x6c then 0x01 else if b == 0x6d then 0x21 else if b == 0x6e then 0x78 else 0x87
  }

  function S7(b: Octet): Octet
  {
    if b == 0x70 then 0xd4 else if b == 0x71 then 0x00 else if b == 0x72 then 0x46 else if b == 0x73 then 0x57 else
    if b == 0x74 then 0x9f else if b == 0x75 then 0xd3 else if b == 0x76 then 0x27 else if b == 0x77 then 0x52 else
    if b == 0x78 then 0x4c else if b == 0x79 then 0x36 else if b == 0x7a then 0x02 else if b == 0x7b then 0xe7 else
    if b == 0x7c then 0xa0 else if b == 0x7d then 0xc4 else if b == 0x7e then 0xc8 else 0x9e
  }

  function S8(b: Octet): Octet
  {
    if b == 0x80 then 0xea else if b == 0x81 then 0xbf else if b == 0x82 then 0x8a else if b == 0x83 then 0xd2 else
    if b == 0x84 then 0x40 else if b == 0x85 then 0xc7 else if b == 0x86 then 0x38 else if b == 0x87 then 0xb5 else
    if b == 0x88 then 0xa3 else if b == 0x89 then 0xf7 else if b == 0x8a then 0xf2 else if b == 0x8b then 0xce else
    if b == 0x8c then 0xf9 else if b == 0x8d then 0x61 else if b == 0x8e then 0x15 else 0xa1
  }

  function S9(b: Octet): Octet
  {
    if b == 0x90 then 0xe0 else if b == 0x91 then 0xae else if b == 0x92 then 0x5d else if b == 0x93 then 0xa4 else
    if b == 0x94 then 0x9b else if b == 0x95 then 0x34 else if b == 0x96 then 0x1a else if b == 0x97 then 0x55 else
    if b == 0x98 then 0xad else if b == 0x99 then 0x93 else if b == 0x9a then 0x32 else if b == 0x9b then 0x30 else
    if b == 0x9c then 0xf5 else if b == 0x9d then 0x8c else if b == 0x9e then 0xb1 else 0xe3
  }

  function SA(b: Octet): Octet
  {
    if b == 0xa0 then 0x1d else if b == 0xa1 then 0xf6 else if b == 0xa2 then 0xe2 else if b == 0xa3 then 0x2e else
    if b == 0xa4 then 0x82 else if b == 0xa5 then 0x66 else if b == 0xa6 then 0xca else if b == 0xa7 then 0x60 else
    if b == 0xa8 then 0xc0 else if b == 0xa9 then 0x29 else if b == 0xaa then 0x23 else if b == 0xab then 0xab else
    if b == 0xac then 0x0d else if b == 0xad then 0x53 else if b == 0xae then 0x4e else 0x6f
  }

  function SB(b: Octet): Octet
  {
    if b == 0xb0 then 0xd5 else if b == 0xb1 then 0xdb else if b == 0xb2 then 0x37 else if b == 0xb3 then 0x45 else
    if b == 0xb4 then 0xde else if b == 0xb5 then 0xfd else if b == 0xb6 then 0x8e else if b == 0xb7 then 0x2f else
    if b == 0xb8 then 0x03 else if b == 0xb9 then 0xff else if b == 0xba then 0x6a else if b == 0xbb then 0x72 else
    if b == 0xbc then 0x6d else if b == 0xbd then 0x6c else if b == 0xbe then 0x5b else 0x51
  }

  function SC(b: Octet): Octet
  {
    if b == 0xc0 then 0x8d else if b == 0xc1 then 0x1b else if b == 0xc2 then 0xaf else if b == 0xc3 then 0x92 else
    if b == 0xc4 then 0xbb else if b == 0xc5 then 0xdd else if b == 0xc6 then 0xbc else if b == 0xc7 then 0x7f else
    if b == 0xc8 then 0x11 else if b == 0xc9 then 0xd9 else if b == 0xca then 0x5c else if b == 0xcb then 0x41 else
    if b == 0xcc then 0x1f else if b == 0xcd then 0x10 else if b == 0xce then 0x5a else 0xd8
  }

  function SD(b: Octet): Octet
  {
    if b == 0xd0 then 0x0a else if b == 0xd1 then 0xc1 else if b == 0xd2 then 0x31 else if b == 0xd3 then 0x88 else
    if b == 0xd4 then 0xa5 else if b == 0xd5 then 0xcd else if b == 0xd6 then 0x7b else if b == 0xd7 then 0xbd else
    if b == 0xd8 then 0x2d else if b == 0xd9 then 0x74 else if b == 0xda then 0xd0 else if b == 0xdb then 0x12 else
    if b == 0xdc then 0xb8 else if b == 0xdd then 0xe5 else if b == 0xde then 0xb4 else 0xb0
  }

  function SE(b: Octet): Octet
  {
    if b == 0xe0 then 0x89 else if b == 0xe1 then 0x69 else if b == 0xe2 then 0x97 else if b == 0xe3 then 0x4a else
    if b == 0xe4 then 0x0c else if b == 0xe5 then 0x96 else if b == 0xe6 then 0x77 else if b == 0xe7 then 0x7e else
    if b == 0xe8 then 0x65 else if b == 0xe9 then 0xb9 else if b == 0xea then 0xf1 else if b == 0xeb then 0x09 else
    if b == 0xec then 0xc5 else if b == 0xed then 0x6e else if b == 0xee then 0xc6 else 0x84
  }

  function SF(b: Octet): Octet
  {
    if b == 0xf0 then 0x18 else if b == 0xf1 then 0xf0 else if b == 0xf2 then 0x7d else if b == 0xf3 then 0xec else
    if b == 0xf4 then 0x3a else if b == 0xf5 then 0xdc else if b == 0xf6 then 0x4d else if b == 0xf7 then 0x20 else
    if b == 0xf8 then 0x79 else if b == 0xf9 then 0xee else if b == 0xfa then 0x5f else if b == 0xfb then 0x3e else
    if b == 0xfc then 0xd7 else if b == 0xfd then 0xcb else if b == 0xfe then 0x39 else 0x48
  }

  /** The substitution box of YS_Islam. */
  function I(b: Octet): Octet
  {
    if b < 0x10 then I0(b)
    else if b < 0x20 then I1(b)
    else if b < 0x30 then I2(b)
    else if b < 0x40 then I3(b)
    else if b < 0x50 then I4(b)
    else if b < 0x60 then I5(b)
    else if b < 0x70 then I6(b)
    else if b < 0x80 then I7(b)
    else if b < 0x90 then I8(b)
    else if b < 0xa0 then I9(b)
    else if b < 0xb0 then IA(b)
    else if b < 0xc0 then IB(b)
    else if b < 0xd0 then IC(b)
    else if b < 0xe0 then ID(b)
    else if b < 0xf0 then IE(b)
    else IF(b)
  }

  function I0(b: Octet): Octet
  {
    if b == 0x00 then 0x69 else if b == 0x01 then 0x73 else if b == 0x02 then 0x6c else if b == 0x03 then 0x61 else
    if b == 0x04 then 0x6d else if b == 0x05 then 0x78 else if b == 0x06 then 0xf9 else if b == 0x07 then 0xf0 else
    if b == 0x08 then 0x86 else if b == 0x09 then 0x7b else if b == 0x0a then 0xfe else if b == 0x0b then 0x40 else
    if b == 0x0c then 0xb4 else if b == 0x0d then 0x48 else if b == 0x0e then 0x29 else 0x88
  }

  function I1(b: Octet): Octet
  {
    if b == 0x10 then 0x0a else if b == 0x11 then 0xca else if b == 0x12 then 0xde else if b == 0x13 then 0x66 else
    if b == 0x14 then 0xd6 else if b == 0x15 then 0x8e else if b == 0x16 then 0xe6 else if b == 0x17 then 0xbe else
    if b == 0x18 then 0xf3 else if b == 0x19 then 0xbf else if b == 0x1a then 0x21 else if b == 0x1b then 0x8a else
    if b == 0x1c then 0xff else if b == 0x1d then 0x96 else if b == 0x1e then 0x5a else 0xb3
  }

  function I2(b: Octet): Octet
  {
    if b == 0x20 then 0xc0 else if b == 0x21 then 0x1b else if b == 0x22 then 0xfb else if b == 0x23 then 0xe9 else
    if b == 0x24 then 0x0e else if b == 0x25 then 0x42 else if b == 0x26 then 0x64 else if b == 0x27 then 0x1d else
    if b == 0x28 then 0xf7 else if b == 0x29 then 0xa1 else if b == 0x2a then 0x8b else if b == 0x2b then 0xc6 else
    if b == 0x2c then 0x2b else if b == 0x2d then 0x9f else if b == 0x2e then 0xa3 else 0x7a
  }

  function I3(b: Octet): Octet
  {
    if b == 0x30 then 0x0d else if b == 0x31 then 0xab else if b == 0x32 then 0x7f else if b == 0x33 then 0x80 else
    if b == 0x34 then 0xd8 else if b == 0x35 then 0x00 else if b == 0x36 then 0xd2 else if b == 0x37 then 0xa9 else
    if b == 0x38 then 0xf2 else if b == 0x39 then 0x3d else if b == 0x3a then 0x77 else if b == 0x3b then 0x04 else
    if b == 0x3c then 0x3c else if b == 0x3d then 0xa2 else if b == 0x3e then 0xb9 else 0x10
  }

  function I4(b: Octet): Octet
  {
    if b == 0x40 then 0xdc else if b == 0x41 then 0xf6 else if b == 0x42 then 0xc2 else if b == 0x43 then 0x5b else
    if b == 0x44 then 0x32 else if b == 0x45 then 0x44 else if b == 0x46 then 0x6e else if b == 0x47 then 0x74 else
    if b == 0x48 then 0xf4 else if b == 0x49 then 0x98 else if b == 0x4a then 0x76 else if b == 0x4b then 0xec else
    if b == 0x4c then 0x25 else if b == 0x4d then 0x2a else if b == 0x4e then 0x11 else 0x28
  }

  function I5(b: Octet): Octet
  {
    if b == 0x50 then 0x2e else if b == 0x51 then 0x3a else if b == 0x52 then 0xda else if b == 0x53 then 0x49 else
    if b == 0x54 then 0x6b else if b == 0x55 then 0xd0 else if b == 0x56 then 0xd4 else if b == 0x57 then 0x75 else
    if b == 0x58 then 0xe5 else if b == 0x59 then 0xc3 else if b == 0x5a then 0xe3 else if b == 0x5b then 0x68 else
    if b == 0x5c then 0x55 else if b == 0x5d then 0x8d else if b == 0x5e then 0xb6 else 0x4b
  }

  function I6(b: Octet): Octet
  {
    if b == 0x60 then 0x90 else if b == 0x61 then 0x50 else if b == 0x62 then 0x30 else if b == 0x63 then 0x62 else
    if b == 0x64 then 0xa0 else if b == 0x65 then 0xc4 else if b == 0x66 then 0x81 else if b == 0x67 then 0x7c else
    if b == 0x68 then 0xdf else if b == 0x69 then 0x1a else if b == 0x6a then 0x8c else if b == 0x6b then 0x4e else
    if b == 0x6c then 0x2c else if b == 0x6d then 0x5f else if b == 0x6e then 0xb8 else 0xed
  }

  function I7(b: Octet): Octet
  {
    if b == 0x70 then 0x33 else if b == 0x71 then 0xd5 else if b == 0x72 then 0xe4 else if b == 0x73 then 0x20 else
    if b == 0x74 then 0x3b else if b == 0x75 then 0x57 else if b == 0x76 then 0x58 else if b == 0x77 then 0x17 else
    if b == 0x78 then 0xcd else if b == 0x79 then 0x06 else if b == 0x7a then 0x52 else if b == 0x7b then 0xe2 else
    if b == 0x7c then 0x46 else if b == 0x7d then 0x63 else if b == 0x7e then 0xcf else 0xe8
  }

  function I8(b: Octet): Octet
  {
    if b == 0x80 then 0x34 else if b == 0x81 then 0xa7 else if b == 0x82 then 0x82 else if b == 0x83 then 0x1e else
    if b == 0x84 then 0x27 else if b == 0x85 then 0x45 else if b == 0x86 then 0x24 else if b == 0x87 then 0xdd else
    if b == 0x88 then 0xb7 else if b == 0x89 then 0xb0 else if b == 0x8a then 0x07 else if b == 0x8b then 0xf1 else
    if b == 0x8c then 0xd9 else if b == 0x8d then 0x4d else if b == 0x8e then 0x1f else 0xb2
  }

  function I9(b: Octet): Octet
  {
    if b == 0x90 then 0xe7 else if b == 0x91 then 0x15 else if b == 0x92 then 0xf8 else if b == 0x93 then 0xaa else
    if b == 0x94 then 0xba else if b == 0x95 then 0xea else if b == 0x96 then 0x7e else if b == 0x97 then 0xaf else
    if b == 0x98 then 0x2f else if b == 0x99 then 0x38 else if b == 0x9a then 0xad else if b == 0x9b then 0x89 else
    if b == 0x9c then 0x72 else if b == 0x9d then 0x5c else if b == 0x9e then 0xc7 else 0x4a
  }

  function IA(b: Octet): Octet
  {
    if b == 0xa0 then 0x01 else if b == 0xa1 then 0x2d else if b == 0xa2 then 0x97 else if b == 0xa3 then 0x84 else
    if b == 0xa4 then 0x8f else if b == 0xa5 then 0xa6 else if b == 0xa6 then 0x35 else if b == 0xa7 then 0x9c else
    if b == 0xa8 then 0xfd else if b == 0xa9 then 0xbc else if b == 0xaa then 0x3e else if b == 0xab then 0xa5 else
    if b == 0xac then 0xc5 else if b == 0xad then 0x22 else if b == 0xae then 0x91 else 0x59
  }

  function IB(b: Octet): Octet
  {
    if b == 0xb0 then 0xb1 else if b == 0xb1 then 0x92 else if b == 0xb2 then 0x6f else if b == 0xb3 then 0x18 else
    if b == 0xb4 then 0xf5 else if b == 0xb5 then 0x83 else if b == 0xb6 then 0xdb else if b == 0xb7 then 0x12 else
    if b == 0xb8 then 0xac else if b == 0xb9 then 0xef else if b == 0xba then 0x09 else if b == 0xbb then 0xe0 else
    if b == 0xbc then 0x23 else if b == 0xbd then 0xa4 else if b == 0xbe then 0x60 else 0x9a
  }

  function IC(b: Octet): Octet
  {
    if b == 0xc0 then 0x1c else if b == 0xc1 then 0xbd else if b == 0xc2 then 0x43 else if b == 0xc3 then 0x9b else
    if b == 0xc4 then 0x02 else if b == 0xc5 then 0x3f else if b == 0xc6 then 0x05 else if b == 0xc7 then 0x08 else
    if b == 0xc8 then 0xfc else if b == 0xc9 then 0x4c else if b == 0xca then 0x85 else if b == 0xcb then 0x36 else
    if b == 0xcc then 0x13 else if b == 0xcd then 0x0b else if b == 0xce then 0x0f else 0x95
  }

  function ID(b: Octet): Octet
  {
    if b == 0xd0 then 0xc9 else if b == 0xd1 then 0x9e else if b == 0xd2 then 0x0c else if b == 0xd3 then 0x5d else
    if b == 0xd4 then 0x5e else if b == 0xd5 then 0xae else if b == 0xd6 then 0x41 else if b == 0xd7 then 0x70 else
    if b == 0xd8 then 0x03 else if b == 0xd9 then 0xcc else if b == 0xda then 0xd1 else if b == 0xdb then 0x51 else
    if b == 0xdc then 0xbb else if b == 0xdd then 0xcb else if b == 0xde then 0xfa else 0xc1
  }

  function IE(b: Octet): Octet
  {
    if b == 0xe0 then 0x19 else if b == 0xe1 then 0x9d else if b == 0xe2 then 0x65 else if b == 0xe3 then 0x26 else
    if b == 0xe4 then 0x14 else if b == 0xe5 then 0x47 else if b == 0xe6 then 0x39 else if b == 0xe7 then 0xce else
    if b == 0xe8 then 0x6a else if b == 0xe9 then 0xee else if b == 0xea then 0x71 else if b == 0xeb then 0xb5 else
    if b == 0xec then 0x31 else if b == 0xed then 0xa8 else if b == 0xee then 0x99 else 0xeb
  }

  function IF(b: Octet): Octet
  {
    if b == 0xf0 then 0xd3 else if b == 0xf1 then 0x67 else if b == 0xf2 then 0x94 else if b == 0xf3 then 0x16 else
    if b == 0xf4 then 0xe1 else if b == 0xf5 then 0xd7 else if b == 0xf6 then 0x37 else if b == 0xf7 then 0x7d else
    if b == 0xf8 then 0x87 else if b == 0xf9 then 0xc8 else if b == 0xfa then 0x53 else if b == 0xfb then 0x56 else
    if b == 0xfc then 0x93 else if b == 0xfd then 0x4f else if b == 0xfe then 0x54 else 0x79
  }

  /** The look-up table of both. */
  function T(b: Octet): Word
  {
    if b < 0x10 then T0(b)
    else if b < 0x20 then T1(b)
    else if b < 0x30 then T2(b)
    else if b < 0x40 then T3(b)
    else if b < 0x50 then T4(b)
    else if b < 0x60 then T5(b)
    else if b < 0x70 then T6(b)
    else if b < 0x80 then T7(b)
    else if b < 0x90 then T8(b)
    else if b < 0xa0 then T9(b)
    else if b < 0xb0 then TA(b)
    else if b < 0xc0 then TB(b)
    else if b < 0xd0 then TC(b)
    else if b < 0xe0 then TD(b)
    else if b < 0xf0 then TE(b)
    else TF(b)
  }

  function T0(b: Octet): Word
  {
    if b == 0x00 then 0x8ed55b5b else if b == 0x01 then 0xd0924242 else if b == 0x02 then 0x4deaa7a7 else
    if b == 0x03 then 0x06fdfbfb else if b == 0x04 then 0xfccf3333 else if b == 0x05 then 0x65e28787 else
    if b == 0x06 then 0xc93df4f4 else if b == 0x07 then 0x6bb5dede else if b == 0x08 then 0x4e165858 else
    if b == 0x09 then 0x6eb4dada else if b == 0x0a then 0x44145050 else if b == 0x0b then 0xcac10b0b else
    if b == 0x0c then 0x8828a0a0 else if b == 0x0d then 0x17f8efef else if b == 0x0e then 0x9c2cb0b0 else 0x11051414
  }

  function T1(b: Octet): Word
  {
    if b == 0x10 then 0x872bacac else if b == 0x11 then 0xfb669d9d else if b == 0x12 then 0xf2986a6a else
    if b == 0x13 then 0xae77d9d9 else if b == 0x14 then 0x822aa8a8 else if b == 0x15 then 0x46bcfafa else
    if b == 0x16 then 0x14041010 else if b == 0x17 then 0xcfc00f0f else if b == 0x18 then 0x02a8aaaa else
    if b == 0x19 then 0x54451111 else if b == 0x1a then 0x5f134c4c else if b == 0x1b then 0xbe269898 else
    if b == 0x1c then 0x6d482525 else if b == 0x1d then 0x9e841a1a else if b == 0x1e then 0x1e061818 else 0xfd9b6666
  }

  function T2(b: Octet): Word
  {
    if b == 0x20 then 0xec9e7272 else if b == 0x21 then 0x4a430909 else if b == 0x22 then 0x10514141 else
    if b == 0x23 then 0x24f7d3d3 else if b == 0x24 then 0xd5934646 else if b == 0x25 then 0x53ecbfbf else
    if b == 0x26 then 0xf89a6262 else if b == 0x27 then 0x927be9e9 else if b == 0x28 then 0xff33cccc else
    if b == 0x29 then 0x04555151 else if b == 0x2a then 0x270b2c2c else if b == 0x2b then 0x4f420d0d else
    if b == 0x2c then 0x59eeb7b7 else if b == 0x2d then 0xf3cc3f3f else if b == 0x2e then 0x1caeb2b2 else 0xea638989
  }

  function T3(b: Octet): Word
  {
    if b == 0x30 then 0x74e79393 else if b == 0x31 then 0x7fb1cece else if b == 0x32 then 0x6c1c7070 else
    if b == 0x33 then 0x0daba6a6 else if b == 0x34 then 0xedca2727 else if b == 0x35 then 0x28082020 else
    if b == 0x36 then 0x48eba3a3 else if b == 0x37 then 0xc1975656 else if b == 0x38 then 0x80820202 else
    if b == 0x39 then 0xa3dc7f7f else if b == 0x3a then 0xc4965252 else if b == 0x3b then 0x12f9ebeb else
    if b == 0x3c then 0xa174d5d5 else if b == 0x3d then 0xb38d3e3e else if b == 0x3e then 0xc33ffcfc else 0x3ea49a9a
  }

  function T4(b: Octet): Word
  {
    if b == 0x40 then 0x5b461d1d else if b == 0x41 then 0x1b071c1c else if b == 0x42 then 0x3ba59e9e else
    if b == 0x43 then 0x0cfff3f3 else if b == 0x44 then 0x3ff0cfcf else if b == 0x45 then 0xbf72cdcd else
    if b == 0x46 then 0x4b175c5c else if b == 0x47 then 0x52b8eaea else if b == 0x48 then 0x8f810e0e else
    if b == 0x49 then 0x3d586565 else if b == 0x4a then 0xcc3cf0f0 else if b == 0x4b then 0x7d196464 else
    if b == 0x4c then 0x7ee59b9b else if b == 0x4d then 0x91871616 else if b == 0x4e then 0x734e3d3d else 0x08aaa2a2
  }

  function T5(b: Octet): Word
  {
    if b == 0x50 then 0xc869a1a1 else if b == 0x51 then 0xc76aadad else if b == 0x52 then 0x85830606 else
    if b == 0x53 then 0x7ab0caca else if b == 0x54 then 0xb570c5c5 else if b == 0x55 then 0xf4659191 else
    if b == 0x56 then 0xb2d96b6b else if b == 0x57 then 0xa7892e2e else if b == 0x58 then 0x18fbe3e3 else
    if b == 0x59 then 0x47e8afaf else if b == 0x5a then 0x330f3c3c else if b == 0x5b then 0x674a2d2d else
    if b == 0x5c then 0xb071c1c1 else if b == 0x5d then 0x0e575959 else if b == 0x5e then 0xe99f7676 else 0xe135d4d4
  }

  function T6(b: Octet): Word
  {
    if b == 0x60 then 0x661e7878 else if b == 0x61 then 0xb4249090 else if b == 0x62 then 0x360e3838 else
    if b == 0x63 then 0x265f7979 else if b == 0x64 then 0xef628d8d else if b == 0x65 then 0x38596161 else
    if b == 0x66 then 0x95d24747 else if b == 0x67 then 0x2aa08a8a else if b == 0x68 then 0xb1259494 else
    if b == 0x69 then 0xaa228888 else if b == 0x6a then 0x8c7df1f1 else if b == 0x6b then 0xd73becec else
    if b == 0x6c then 0x05010404 else if b == 0x6d then 0xa5218484 else if b == 0x6e then 0x9879e1e1 else 0x9b851e1e
  }

  function T7(b: Octet): Word
  {
    if b == 0x70 then 0x84d75353 else if b == 0x71 then 0x00000000 else if b == 0x72 then 0x5e471919 else
    if b == 0x73 then 0x0b565d5d else if b == 0x74 then 0xe39d7e7e else if b == 0x75 then 0x9fd04f4f else
    if b == 0x76 then 0xbb279c9c else if b == 0x77 then 0x1a534949 else if b == 0x78 then 0x7c4d3131 else
    if b == 0x79 then 0xee36d8d8 else if b == 0x7a then 0x0a020808 else if b == 0x7b then 0x7be49f9f else
    if b == 0x7c then 0x20a28282 else if b == 0x7d then 0xd4c71313 else if b == 0x7e then 0xe8cb2323 else 0xe69c7a7a
  }

  function T8(b: Octet): Word
  {
    if b == 0x80 then 0x42e9abab else if b == 0x81 then 0x43bdfefe else if b == 0x82 then 0xa2882a2a else
    if b == 0x83 then 0x9ad14b4b else if b == 0x84 then 0x40410101 else if b == 0x85 then 0xdbc41f1f else
    if b == 0x86 then 0xd838e0e0 else if b == 0x87 then 0x61b7d6d6 else if b == 0x88 then 0x2fa18e8e else
    if b == 0x89 then 0x2bf4dfdf else if b == 0x8a then 0x3af1cbcb else if b == 0x8b then 0xf6cd3b3b else
    if b == 0x8c then 0x1dfae7e7 else if b == 0x8d then 0xe5608585 else if b == 0x8e then 0x41155454 else 0x25a38686
  }

  function T9(b: Octet): Word
  {
    if b == 0x90 then 0x60e38383 else if b == 0x91 then 0x16acbaba else if b == 0x92 then 0x295c7575 else
    if b == 0x93 then 0x34a69292 else if b == 0x94 then 0xf7996e6e else if b == 0x95 then 0xe434d0d0 else
    if b == 0x96 then 0x721a6868 else if b == 0x97 then 0x01545555 else if b == 0x98 then 0x19afb6b6 else
    if b == 0x99 then 0xdf914e4e else if b == 0x9a then 0xfa32c8c8 else if b == 0x9b then 0xf030c0c0 else
    if b == 0x9c then 0x21f6d7d7 else if b == 0x9d then 0xbc8e3232 else if b == 0x9e then 0x75b3c6c6 else 0x6fe08f8f
  }

  function TA(b: Octet): Word
  {
    if b == 0xa0 then 0x691d7474 else if b == 0xa1 then 0x2ef5dbdb else if b == 0xa2 then 0x6ae18b8b else
    if b == 0xa3 then 0x962eb8b8 else if b == 0xa4 then 0x8a800a0a else if b == 0xa5 then 0xfe679999 else
    if b == 0xa6 then 0xe2c92b2b else if b == 0xa7 then 0xe0618181 else if b == 0xa8 then 0xc0c30303 else
    if b == 0xa9 then 0x8d29a4a4 else if b == 0xaa then 0xaf238c8c else if b == 0xab then 0x07a9aeae else
    if b == 0xac then 0x390d3434 else if b == 0xad then 0x1f524d4d else if b == 0xae then 0x764f3939 else 0xd36ebdbd
  }

  function TB(b: Octet): Word
  {
    if b == 0xb0 then 0x81d65757 else if b == 0xb1 then 0xb7d86f6f else if b == 0xb2 then 0xeb37dcdc else
    if b == 0xb3 then 0x51441515 else if b == 0xb4 then 0xa6dd7b7b else if b == 0xb5 then 0x09fef7f7 else
    if b == 0xb6 then 0xb68c3a3a else if b == 0xb7 then 0x932fbcbc else if b == 0xb8 then 0x0f030c0c else
    if b == 0xb9 then 0x03fcffff else if b == 0xba then 0xc26ba9a9 else if b == 0xbb then 0xba73c9c9 else
    if b == 0xbc then 0xd96cb5b5 else if b == 0xbd then 0xdc6db1b1 else if b == 0xbe then 0x375a6d6d else 0x15504545
  }

  function TC(b: Octet): Word
  {
    if b == 0xc0 then 0xb98f3636 else if b == 0xc1 then 0x771b6c6c else if b == 0xc2 then 0x13adbebe else
    if b == 0xc3 then 0xda904a4a else if b == 0xc4 then 0x57b9eeee else if b == 0xc5 then 0xa9de7777 else
    if b == 0xc6 then 0x4cbef2f2 else if b == 0xc7 then 0x837efdfd else if b == 0xc8 then 0x55114444 else
    if b == 0xc9 then 0xbdda6767 else if b == 0xca then 0x2c5d7171 else if b == 0xcb then 0x45400505 else
    if b == 0xcc then 0x631f7c7c else if b == 0xcd then 0x50104040 else if b == 0xce then 0x325b6969 else 0xb8db6363
  }

  function TD(b: Octet): Word
  {
    if b == 0xd0 then 0x220a2828 else if b == 0xd1 then 0xc5c20707 else if b == 0xd2 then 0xf531c4c4 else
    if b == 0xd3 then 0xa88a2222 else if b == 0xd4 then 0x31a79696 else if b == 0xd5 then 0xf9ce3737 else
    if b == 0xd6 then 0x977aeded else if b == 0xd7 then 0x49bff6f6 else if b == 0xd8 then 0x992db4b4 else
    if b == 0xd9 then 0xa475d1d1 else if b == 0xda then 0x90d34343 else if b == 0xdb then 0x5a124848 else
    if b == 0xdc then 0x58bae2e2 else if b == 0xdd then 0x71e69797 else if b == 0xde then 0x64b6d2d2 else 0x70b2c2c2
  }

  function TE(b: Octet): Word
  {
    if b == 0xe0 then 0xad8b2626 else if b == 0xe1 then 0xcd68a5a5 else if b == 0xe2 then 0xcb955e5e else
    if b == 0xe3 then 0x624b2929 else if b == 0xe4 then 0x3c0c3030 else if b == 0xe5 then 0xce945a5a else
    if b == 0xe6 then 0xab76dddd else if b == 0xe7 then 0x867ff9f9 else if b == 0xe8 then 0xf1649595 else
    if b == 0xe9 then 0x5dbbe6e6 else if b == 0xea then 0x35f2c7c7 else if b == 0xeb then 0x2d092424 else
    if b == 0xec then 0xd1c61717 else if b == 0xed then 0xd66fb9b9 else if b == 0xee then 0xdec51b1b else 0x94861212
  }

  function TF(b: Octet): Word
  {
    if b == 0xf0 then 0x78186060 else if b == 0xf1 then 0x30f3c3c3 else if b == 0xf2 then 0x897cf5f5 else
    if b == 0xf3 then 0x5cefb3b3 else if b == 0xf4 then 0xd23ae8e8 else if b == 0xf5 then 0xacdf7373 else
    if b == 0xf6 then 0x794c3535 else if b == 0xf7 then 0xa0208080 else if b == 0xf8 then 0x9d78e5e5 else
    if b == 0xf9 then 0x56edbbbb else if b == 0xfa then 0x235e7d7d else if b == 0xfb then 0xc63ef8f8 else
    if b == 0xfc then 0x8bd45f5f else if b == 0xfd then 0xe7c82f2f else if b == 0xfe then 0xdd39e4e4 else 0x68492121
  }

  lemma Row0(b: Octet)
    requires b < 0x10
    ensures T0(b) == L(High(S0(b))) && T0(b) != L(High(I0(b)))
  {
    if b == 0x00 {} else if b == 0x01 {} else if b == 0x02 {} else if b == 0x03 {} else if b == 0x04 {}
    else if b == 0x05 {} else if b == 0x06 {} else if b == 0x07 {} else if b == 0x08 {} else if b == 0x09 {}
    else if b == 0x0a {} else if b == 0x0b {} else if b == 0x0c {} else if b == 0x0d {} else if b == 0x0e {} else {}
  }

  lemma Row1(b: Octet)
    requires 0x10 <= b < 0x20
    ensures T1(b) == L(High(S1(b))) && T1(b) != L(High(I1(b)))
  {
    if b == 0x10 {} else if b == 0x11 {} else if b == 0x12 {} else if b == 0x13 {} else if b == 0x14 {}
    else if b == 0x15 {} else if b == 0x16 {} else if b == 0x17 {} else if b == 0x18 {} else if b == 0x19 {}
    else if b == 0x1a {} else if b == 0x1b {} else if b == 0x1c {} else if b == 0x1d {} else if b == 0x1e {} else {}
  }

  lemma Row2(b: Octet)
    requires 0x20 <= b < 0x30
    ensures T2(b) == L(High(S2(b))) && T2(b) != L(High(I2(b)))
  {
    if b == 0x20 {} else if b == 0x21 {} else if b == 0x22 {} else if b == 0x23 {} else if b == 0x24 {}
    else if b == 0x25 {} else if b == 0x26 {} else if b == 0x27 {} else if b == 0x28 {} else if b == 0x29 {}
    else if b == 0x2a {} else if b == 0x2b {} else if b == 0x2c {} else if b == 0x2d {} else if b == 0x2e {} else {}
  }

  lemma Row3(b: Octet)
    requires 0x30 <= b < 0x40
    ensures T3(b) == L(High(S3(b))) && T3(b) != L(High(I3(b)))
  {
    if b == 0x30 {} else if b == 0x31 {} else if b == 0x32 {} else if b == 0x33 {} else if b == 0x34 {}
    else if b == 0x35 {} else if b == 0x36 {} else if b == 0x37 {} else if b == 0x38 {} else if b == 0x39 {}
    else if b == 0x3a {} else if b == 0x3b {} else if b == 0x3c {} else if b == 0x3d {} else if b == 0x3e {} else {}
  }

  lemma Row4(b: Octet)
    requires 0x40 <= b < 0x50
    ensures T4(b) == L(High(S4(b))) && T4(b) != L(High(I4(b)))
  {
    if b == 0x40 {} else if b == 0x41 {} else if b == 0x42 {} else if b == 0x43 {} else if b == 0x44 {}
    else if b == 0x45 {} else if b == 0x46 {} else if b == 0x47 {} else if b == 0x48 {} else if b == 0x49 {}
    else if b == 0x4a {} else if b == 0x4b {} else if b == 0x4c {} else if b == 0x4d {} else if b == 0x4e {} else {}
  }

  lemma Row5(b: Octet)
    requires 0x50 <= b < 0x60
    ensures T5(b) == L(High(S5(b))) && T5(b) != L(High(I5(b)))
  {
    if b == 0x50 {} else if b == 0x51 {} else if b == 0x52 {} else if b == 0x53 {} else if b == 0x54 {}
    else if b == 0x55 {} else if b == 0x56 {} else if b == 0x57 {} else if b == 0x58 {} else if b == 0x59 {}
    else if b == 0x5a {} else if b == 0x5b {} else if b == 0x5c {} else if b == 0x5d {} else if b == 0x5e {} else {}
  }

  lemma Row6(b: Octet)
    requires 0x60 <= b < 0x70
    ensures T6(b) == L(High(S6(b))) && T6(b) != L(High(I6(b)))
  {
    if b == 0x60 {} else if b == 0x61 {} else if b == 0x62 {} else if b == 0x63 {} else if b == 0x64 {}
    else if b == 0x65 {} else if b == 0x66 {} else if b == 0x67 {} else if b == 0x68 {} else if b == 0x69 {}
    else if b == 0x6a {} else if b == 0x6b {} else if b == 0x6c {} else if b == 0x6d {} else if b == 0x6e {} else {}
  }

  lemma Row7(b: Octet)
    requires 0x70 <= b < 0x80
    ensures T7(b) == L(High(S7(b))) && T7(b) != L(High(I7(b)))
  {
    if b == 0x70 {} else if b == 0x71 {} else if b == 0x72 {} else if b == 0x73 {} else if b == 0x74 {}
    else if b == 0x75 {} else if b == 0x76 {} else if b == 0x77 {} else if b == 0x78 {} else if b == 0x79 {}
    else if b == 0x7a {} else if b == 0x7b {} else if b == 0x7c {} else if b == 0x7d {} else if b == 0x7e {} else {}
  }

  lemma Row8(b: Octet)
    requires 0x80 <= b < 0x90
    ensures T8(b) == L(High(S8(b))) && T8(b) != L(High(I8(b)))
  {
    if b == 0x80 {} else if b == 0x81 {} else if b == 0x82 {} else if b == 0x83 {} else if b == 0x84 {}
    else if b == 0x85 {} else if b == 0x86 {} else if b == 0x87 {} else if b == 0x88 {} else if b == 0x89 {}
    else if b == 0x8a {} else if b == 0x8b {} else if b == 0x8c {} else if b == 0x8d {} else if b == 0x8e {} else {}
  }

  lemma Row9(b: Octet)
    requires 0x90 <= b < 0xa0
    ensures T9(b) == L(High(S9(b))) && T9(b) != L(High(I9(b)))
  {
    if b == 0x90 {} else if b == 0x91 {} else if b == 0x92 {} else if b == 0x93 {} else if b == 0x94 {}
    else if b == 0x95 {} else if b == 0x96 {} else if b == 0x97 {} else if b == 0x98 {} else if b == 0x99 {}
    else if b == 0x9a {} else if b == 0x9b {} else if b == 0x9c {} else if b == 0x9d {} else if b == 0x9e {} else {}
  }

  lemma RowA(b: Octet)
    requires 0xa0 <= b < 0xb0
    ensures TA(b) == L(High(SA(b))) && TA(b) != L(High(IA(b)))
  {
    if b == 0xa0 {} else if b == 0xa1 {} else if b == 0xa2 {} else if b == 0xa3 {} else if b == 0xa4 {}
    else if b == 0xa5 {} else if b == 0xa6 {} else if b == 0xa7 {} else if b == 0xa8 {} else if b == 0xa9 {}
    else if b == 0xaa {} else if b == 0xab {} else if b == 0xac {} else if b == 0xad {} else if b == 0xae {} else {}
  }

  lemma RowB(b: Octet)
    requires 0xb0 <= b < 0xc0
    ensures TB(b) == L(High(SB(b))) && TB(b) != L(High(IB(b)))
  {
    if b == 0xb0 {} else if b == 0xb1 {} else if b == 0xb2 {} else if b == 0xb3 {} else if b == 0xb4 {}
    else if b == 0xb5 {} else if b == 0xb6 {} else if b == 0xb7 {} else if b == 0xb8 {} else if b == 0xb9 {}
    else if b == 0xba {} else if b == 0xbb {} else if b == 0xbc {} else if b == 0xbd {} else if b == 0xbe {} else {}
  }

  lemma RowC(b: Octet)
    requires 0xc0 <= b < 0xd0
    ensures TC(b) == L(High(SC(b))) && TC(b) != L(High(IC(b)))
  {
    if b == 0xc0 {} else if b == 0xc1 {} else if b == 0xc2 {} else if b == 0xc3 {} else if b == 0xc4 {}
    else if b == 0xc5 {} else if b == 0xc6 {} else if b == 0xc7 {} else if b == 0xc8 {} else if b == 0xc9 {}
    else if b == 0xca {} else if b == 0xcb {} else if b == 0xcc {} else if b == 0xcd {} else if b == 0xce {} else {}
  }

  lemma RowD(b: Octet)
    requires 0xd0 <= b < 0xe0
    ensures TD(b) == L(High(SD(b))) && TD(b) != L(High(ID(b)))
  {
    if b == 0xd0 {} else if b == 0xd1 {} else if b == 0xd2 {} else if b == 0xd3 {} else if b == 0xd4 {}
    else if b == 0xd5 {} else if b == 0xd6 {} else if b == 0xd7 {} else if b == 0xd8 {} else if b == 0xd9 {}
    else if b == 0xda {} else if b == 0xdb {} else if b == 0xdc {} else if b == 0xdd {} else if b == 0xde {} else {}
  }

  lemma RowE(b: Octet)
    requires 0xe0 <= b < 0xf0
    ensures TE(b) == L(High(SE(b))) && TE(b) != L(High(IE(b)))
  {
    if b == 0xe0 {} else if b == 0xe1 {} else if b == 0xe2 {} else if b == 0xe3 {} else if b == 0xe4 {}
    else if b == 0xe5 {} else if b == 0xe6 {} else if b == 0xe7 {} else if b == 0xe8 {} else if b == 0xe9 {}
    else if b == 0xea {} else if b == 0xeb {} else if b == 0xec {} else if b == 0xed {} else if b == 0xee {} else {}
  }

  lemma RowF(b: Octet)
    requires 0xf0 <= b
    ensures TF(b) == L(High(SF(b))) && TF(b) != L(High(IF(b)))
  {
    if b == 0xf0 {} else if b == 0xf1 {} else if b == 0xf2 {} else if b == 0xf3 {} else if b == 0xf4 {}
    else if b == 0xf5 {} else if b == 0xf6 {} else if b == 0xf7 {} else if b == 0xf8 {} else if b == 0xf9 {}
    else if b == 0xfa {} else if b == 0xfb {} else if b == 0xfc {} else if b == 0xfd {} else if b == 0xfe {} else {}
  }

  /** The constants of the key schedule: octet j of constant i is (4i + j) * 7 mod 256. */
  lemma ConstantIs(i: nat)
    requires i < 32
    ensures var o := i as Octet * 28;
      Cut(CK[i], 0) == o && Cut(CK[i], 1) == o + 7 && Cut(CK[i], 2) == o + 14 && Cut(CK[i], 3) == o + 21
  {
    if i == 0 {} else if i == 1 {} else if i == 2 {} else if i == 3 {} else if i == 4 {} else if i == 5 {}
    else if i == 6 {} else if i == 7 {} else if i == 8 {} else if i == 9 {} else if i == 10 {} else if i == 11 {}
    else if i == 12 {} else if i == 13 {} else if i == 14 {} else if i == 15 {} else if i == 16 {} else if i == 17 {}
    else if i == 18 {} else if i == 19 {} else if i == 20 {} else if i == 21 {} else if i == 22 {} else if i == 23 {}
    else if i == 24 {} else if i == 25 {} else if i == 26 {} else if i == 27 {} else if i == 28 {} else if i == 29 {}
    else if i == 30 {} else {}
  }

  /** Every entry of the table is the transformed entry of the standard's box; none is that of YS_Islam's own. */
  lemma TableIs(b: Octet)
    ensures T(b) == L(High(S(b))) && T(b) != L(High(I(b)))
  {
    hide L, High, S0, S1, S2, S3, S4, S5, S6, S7, S8, S9, SA, SB, SC, SD, SE, SF;
    hide I0, I1, I2, I3, I4, I5, I6, I7, I8, I9, IA, IB, IC, ID, IE, IF;
    hide T0, T1, T2, T3, T4, T5, T6, T7, T8, T9, TA, TB, TC, TD, TE, TF;
    if b < 0x10 { Row0(b); }
    else if b < 0x20 { Row1(b); }
    else if b < 0x30 { Row2(b); }
    else if b < 0x40 { Row3(b); }
    else if b < 0x50 { Row4(b); }
    else if b < 0x60 { Row5(b); }
    else if b < 0x70 { Row6(b); }
    else if b < 0x80 { Row7(b); }
    else if b < 0x90 { Row8(b); }
    else if b < 0xa0 { Row9(b); }
    else if b < 0xb0 { RowA(b); }
    else if b < 0xc0 { RowB(b); }
    else if b < 0xd0 { RowC(b); }
    else if b < 0xe0 { RowD(b); }
    else if b < 0xf0 { RowE(b); }
    else { RowF(b); }
  }

  /** The constants of YS_Sm4, and of YS_Islam. */
  const SM4: Tables := Tables(FK, CK, b => S(b), b => T(b))

  const ISLAM: Tables := Tables(FK, CK, b => I(b), b => T(b))

  lemma TablesMatch()
    ensures SM4.Valid() && ISLAM.Valid() && Matched(SM4, b => S(b)) && Matched(ISLAM, b => S(b))
  {
    hide L, High, S, T, I;
    forall b: Octet ensures T(b) == L(High(S(b))) { TableIs(b); }
  }

  /** YS_Sm4 computes the standard's cipher with the standard's box. */
  lemma Sm4IsStandard(key: Octets, x: Octets)
    requires |key| == |x| == 16
    ensures SM4.Valid() && Enciphers(SM4, SM4.sbox, key, x, Block(SM4, RoundKeys(SM4, key), x))
  {
    hide S, T, L, Enciphers, Block, RoundKeys, Matched;
    TablesMatch();
    BlockIsStandard(SM4, b => S(b), key, x);
  }

  /** YS_Islam computes it with two boxes: the standard's in the rounds, its own in the key schedule only. */
  lemma IslamIsMixed(key: Octets, x: Octets)
    requires |key| == |x| == 16
    ensures ISLAM.Valid() && Enciphers(ISLAM, b => S(b), key, x, Block(ISLAM, RoundKeys(ISLAM, key), x))
    ensures forall b: Octet :: ISLAM.tbox(b) != L(High(ISLAM.sbox(b)))
  {
    hide S, T, I, L, High, Enciphers, Block, RoundKeys, Matched;
    TablesMatch();
    BlockIsStandard(ISLAM, b => S(b), key, x);
    forall b: Octet ensures ISLAM.tbox(b) != L(High(ISLAM.sbox(b))) { TableIs(b); }
  }
}
