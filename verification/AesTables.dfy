/** The substitution tables of FIPS 197. Each is looked up by row (high four bits) and column
    (low four bits), which is how the standard prints them and how the solver can afford them. */
module AesTables {
  type Byte = bv8

  // The forward table (FIPS 197, figure 7): used by the key schedule, and by the encryptor
  // that serves as this model's specification.
  function Sbox(b: Byte): Byte {
    match b >> 4
    case 0x0 => (match b & 0x0F
      case 0x0 => 0x63 case 0x1 => 0x7c case 0x2 => 0x77 case 0x3 => 0x7b case 0x4 => 0xf2 case 0x5 => 0x6b case 0x6 => 0x6f case 0x7 => 0xc5
      case 0x8 => 0x30 case 0x9 => 0x01 case 0xa => 0x67 case 0xb => 0x2b case 0xc => 0xfe case 0xd => 0xd7 case 0xe => 0xab case _ => 0x76)
    case 0x1 => (match b & 0x0F
      case 0x0 => 0xca case 0x1 => 0x82 case 0x2 => 0xc9 case 0x3 => 0x7d case 0x4 => 0xfa case 0x5 => 0x59 case 0x6 => 0x47 case 0x7 => 0xf0
      case 0x8 => 0xad case 0x9 => 0xd4 case 0xa => 0xa2 case 0xb => 0xaf case 0xc => 0x9c case 0xd => 0xa4 case 0xe => 0x72 case _ => 0xc0)
    case 0x2 => (match b & 0x0F
      case 0x0 => 0xb7 case 0x1 => 0xfd case 0x2 => 0x93 case 0x3 => 0x26 case 0x4 => 0x36 case 0x5 => 0x3f case 0x6 => 0xf7 case 0x7 => 0xcc
      case 0x8 => 0x34 case 0x9 => 0xa5 case 0xa => 0xe5 case 0xb => 0xf1 case 0xc => 0x71 case 0xd => 0xd8 case 0xe => 0x31 case _ => 0x15)
    case 0x3 => (match b & 0x0F
      case 0x0 => 0x04 case 0x1 => 0xc7 case 0x2 => 0x23 case 0x3 => 0xc3 case 0x4 => 0x18 case 0x5 => 0x96 case 0x6 => 0x05 case 0x7 => 0x9a
      case 0x8 => 0x07 case 0x9 => 0x12 case 0xa => 0x80 case 0xb => 0xe2 case 0xc => 0xeb case 0xd => 0x27 case 0xe => 0xb2 case _ => 0x75)
    case 0x4 => (match b & 0x0F
      case 0x0 => 0x09 case 0x1 => 0x83 case 0x2 => 0x2c case 0x3 => 0x1a case 0x4 => 0x1b case 0x5 => 0x6e case 0x6 => 0x5a case 0x7 => 0xa0
      case 0x8 => 0x52 case 0x9 => 0x3b case 0xa => 0xd6 case 0xb => 0xb3 case 0xc => 0x29 case 0xd => 0xe3 case 0xe => 0x2f case _ => 0x84)
    case 0x5 => (match b & 0x0F
      case 0x0 => 0x53 case 0x1 => 0xd1 case 0x2 => 0x00 case 0x3 => 0xed case 0x4 => 0x20 case 0x5 => 0xfc case 0x6 => 0xb1 case 0x7 => 0x5b
      case 0x8 => 0x6a case 0x9 => 0xcb case 0xa => 0xbe case 0xb => 0x39 case 0xc => 0x4a case 0xd => 0x4c case 0xe => 0x58 case _ => 0xcf)
    case 0x6 => (match b & 0x0F
      case 0x0 => 0xd0 case 0x1 => 0xef case 0x2 => 0xaa case 0x3 => 0xfb case 0x4 => 0x43 case 0x5 => 0x4d case 0x6 => 0x33 case 0x7 => 0x85
      case 0x8 => 0x45 case 0x9 => 0xf9 case 0xa => 0x02 case 0xb => 0x7f case 0xc => 0x50 case 0xd => 0x3c case 0xe => 0x9f case _ => 0xa8)
    case 0x7 => (match b & 0x0F
      case 0x0 => 0x51 case 0x1 => 0xa3 case 0x2 => 0x40 case 0x3 => 0x8f case 0x4 => 0x92 case 0x5 => 0x9d case 0x6 => 0x38 case 0x7 => 0xf5
      case 0x8 => 0xbc case 0x9 => 0xb6 case 0xa => 0xda case 0xb => 0x21 case 0xc => 0x10 case 0xd => 0xff case 0xe => 0xf3 case _ => 0xd2)
    case 0x8 => (match b & 0x0F
      case 0x0 => 0xcd case 0x1 => 0x0c case 0x2 => 0x13 case 0x3 => 0xec case 0x4 => 0x5f case 0x5 => 0x97 case 0x6 => 0x44 case 0x7 => 0x17
      case 0x8 => 0xc4 case 0x9 => 0xa7 case 0xa => 0x7e case 0xb => 0x3d case 0xc => 0x64 case 0xd => 0x5d case 0xe => 0x19 case _ => 0x73)
    case 0x9 => (match b & 0x0F
      case 0x0 => 0x60 case 0x1 => 0x81 case 0x2 => 0x4f case 0x3 => 0xdc case 0x4 => 0x22 case 0x5 => 0x2a case 0x6 => 0x90 case 0x7 => 0x88
      case 0x8 => 0x46 case 0x9 => 0xee case 0xa => 0xb8 case 0xb => 0x14 case 0xc => 0xde case 0xd => 0x5e case 0xe => 0x0b case _ => 0xdb)
    case 0xa => (match b & 0x0F
      case 0x0 => 0xe0 case 0x1 => 0x32 case 0x2 => 0x3a case 0x3 => 0x0a case 0x4 => 0x49 case 0x5 => 0x06 case 0x6 => 0x24 case 0x7 => 0x5c
      case 0x8 => 0xc2 case 0x9 => 0xd3 case 0xa => 0xac case 0xb => 0x62 case 0xc => 0x91 case 0xd => 0x95 case 0xe => 0xe4 case _ => 0x79)
    case 0xb => (match b & 0x0F
      case 0x0 => 0xe7 case 0x1 => 0xc8 case 0x2 => 0x37 case 0x3 => 0x6d case 0x4 => 0x8d case 0x5 => 0xd5 case 0x6 => 0x4e case 0x7 => 0xa9
      case 0x8 => 0x6c case 0x9 => 0x56 case 0xa => 0xf4 case 0xb => 0xea case 0xc => 0x65 case 0xd => 0x7a case 0xe => 0xae case _ => 0x08)
    case 0xc => (match b & 0x0F
      case 0x0 => 0xba case 0x1 => 0x78 case 0x2 => 0x25 case 0x3 => 0x2e case 0x4 => 0x1c case 0x5 => 0xa6 case 0x6 => 0xb4 case 0x7 => 0xc6
      case 0x8 => 0xe8 case 0x9 => 0xdd case 0xa => 0x74 case 0xb => 0x1f case 0xc => 0x4b case 0xd => 0xbd case 0xe => 0x8b case _ => 0x8a)
    case 0xd => (match b & 0x0F
      case 0x0 => 0x70 case 0x1 => 0x3e case 0x2 => 0xb5 case 0x3 => 0x66 case 0x4 => 0x48 case 0x5 => 0x03 case 0x6 => 0xf6 case 0x7 => 0x0e
      case 0x8 => 0x61 case 0x9 => 0x35 case 0xa => 0x57 case 0xb => 0xb9 case 0xc => 0x86 case 0xd => 0xc1 case 0xe => 0x1d case _ => 0x9e)
    case 0xe => (match b & 0x0F
      case 0x0 => 0xe1 case 0x1 => 0xf8 case 0x2 => 0x98 case 0x3 => 0x11 case 0x4 => 0x69 case 0x5 => 0xd9 case 0x6 => 0x8e case 0x7 => 0x94
      case 0x8 => 0x9b case 0x9 => 0x1e case 0xa => 0x87 case 0xb => 0xe9 case 0xc => 0xce case 0xd => 0x55 case 0xe => 0x28 case _ => 0xdf)
    case _ => (match b & 0x0F
      case 0x0 => 0x8c case 0x1 => 0xa1 case 0x2 => 0x89 case 0x3 => 0x0d case 0x4 => 0xbf case 0x5 => 0xe6 case 0x6 => 0x42 case 0x7 => 0x68
      case 0x8 => 0x41 case 0x9 => 0x99 case 0xa => 0x2d case 0xb => 0x0f case 0xc => 0xb0 case 0xd => 0x54 case 0xe => 0xbb case _ => 0x16)
  }

  // The inverse table (FIPS 197, figure 14): used by the decryptor.
  function InvSbox(b: Byte): Byte {
    match b >> 4
    case 0x0 => (match b & 0x0F
      case 0x0 => 0x52 case 0x1 => 0x09 case 0x2 => 0x6a case 0x3 => 0xd5 case 0x4 => 0x30 case 0x5 => 0x36 case 0x6 => 0xa5 case 0x7 => 0x38
      case 0x8 => 0xbf case 0x9 => 0x40 case 0xa => 0xa3 case 0xb => 0x9e case 0xc => 0x81 case 0xd => 0xf3 case 0xe => 0xd7 case _ => 0xfb)
    case 0x1 => (match b & 0x0F
      case 0x0 => 0x7c case 0x1 => 0xe3 case 0x2 => 0x39 case 0x3 => 0x82 case 0x4 => 0x9b case 0x5 => 0x2f case 0x6 => 0xff case 0x7 => 0x87
      case 0x8 => 0x34 case 0x9 => 0x8e case 0xa => 0x43 case 0xb => 0x44 case 0xc => 0xc4 case 0xd => 0xde case 0xe => 0xe9 case _ => 0xcb)
    case 0x2 => (match b & 0x0F
      case 0x0 => 0x54 case 0x1 => 0x7b case 0x2 => 0x94 case 0x3 => 0x32 case 0x4 => 0xa6 case 0x5 => 0xc2 case 0x6 => 0x23 case 0x7 => 0x3d
      case 0x8 => 0xee case 0x9 => 0x4c case 0xa => 0x95 case 0xb => 0x0b case 0xc => 0x42 case 0xd => 0xfa case 0xe => 0xc3 case _ => 0x4e)
    case 0x3 => (match b & 0x0F
      case 0x0 => 0x08 case 0x1 => 0x2e case 0x2 => 0xa1 case 0x3 => 0x66 case 0x4 => 0x28 case 0x5 => 0xd9 case 0x6 => 0x24 case 0x7 => 0xb2
      case 0x8 => 0x76 case 0x9 => 0x5b case 0xa => 0xa2 case 0xb => 0x49 case 0xc => 0x6d case 0xd => 0x8b case 0xe => 0xd1 case _ => 0x25)
    case 0x4 => (match b & 0x0F
      case 0x0 => 0x72 case 0x1 => 0xf8 case 0x2 => 0xf6 case 0x3 => 0x64 case 0x4 => 0x86 case 0x5 => 0x68 case 0x6 => 0x98 case 0x7 => 0x16
      case 0x8 => 0xd4 case 0x9 => 0xa4 case 0xa => 0x5c case 0xb => 0xcc case 0xc => 0x5d case 0xd => 0x65 case 0xe => 0xb6 case _ => 0x92)
    case 0x5 => (match b & 0x0F
      case 0x0 => 0x6c case 0x1 => 0x70 case 0x2 => 0x48 case 0x3 => 0x50 case 0x4 => 0xfd case 0x5 => 0xed case 0x6 => 0xb9 case 0x7 => 0xda
      case 0x8 => 0x5e case 0x9 => 0x15 case 0xa => 0x46 case 0xb => 0x57 case 0xc => 0xa7 case 0xd => 0x8d case 0xe => 0x9d case _ => 0x84)
    case 0x6 => (match b & 0x0F
      case 0x0 => 0x90 case 0x1 => 0xd8 case 0x2 => 0xab case 0x3 => 0x00 case 0x4 => 0x8c case 0x5 => 0xbc case 0x6 => 0xd3 case 0x7 => 0x0a
      case 0x8 => 0xf7 case 0x9 => 0xe4 case 0xa => 0x58 case 0xb => 0x05 case 0xc => 0xb8 case 0xd => 0xb3 case 0xe => 0x45 case _ => 0x06)
    case 0x7 => (match b & 0x0F
      case 0x0 => 0xd0 case 0x1 => 0x2c case 0x2 => 0x1e case 0x3 => 0x8f case 0x4 => 0xca case 0x5 => 0x3f case 0x6 => 0x0f case 0x7 => 0x02
      case 0x8 => 0xc1 case 0x9 => 0xaf case 0xa => 0xbd case 0xb => 0x03 case 0xc => 0x01 case 0xd => 0x13 case 0xe => 0x8a case _ => 0x6b)
    case 0x8 => (match b & 0x0F
      case 0x0 => 0x3a case 0x1 => 0x91 case 0x2 => 0x11 case 0x3 => 0x41 case 0x4 => 0x4f case 0x5 => 0x67 case 0x6 => 0xdc case 0x7 => 0xea
      case 0x8 => 0x97 case 0x9 => 0xf2 case 0xa => 0xcf case 0xb => 0xce case 0xc => 0xf0 case 0xd => 0xb4 case 0xe => 0xe6 case _ => 0x73)
    case 0x9 => (match b & 0x0F
      case 0x0 => 0x96 case 0x1 => 0xac case 0x2 => 0x74 case 0x3 => 0x22 case 0x4 => 0xe7 case 0x5 => 0xad case 0x6 => 0x35 case 0x7 => 0x85
      case 0x8 => 0xe2 case 0x9 => 0xf9 case 0xa => 0x37 case 0xb => 0xe8 case 0xc => 0x1c case 0xd => 0x75 case 0xe => 0xdf case _ => 0x6e)
    case 0xa => (match b & 0x0F
      case 0x0 => 0x47 case 0x1 => 0xf1 case 0x2 => 0x1a case 0x3 => 0x71 case 0x4 => 0x1d case 0x5 => 0x29 case 0x6 => 0xc5 case 0x7 => 0x89
      case 0x8 => 0x6f case 0x9 => 0xb7 case 0xa => 0x62 case 0xb => 0x0e case 0xc => 0xaa case 0xd => 0x18 case 0xe => 0xbe case _ => 0x1b)
    case 0xb => (match b & 0x0F
      case 0x0 => 0xfc case 0x1 => 0x56 case 0x2 => 0x3e case 0x3 => 0x4b case 0x4 => 0xc6 case 0x5 => 0xd2 case 0x6 => 0x79 case 0x7 => 0x20
      case 0x8 => 0x9a case 0x9 => 0xdb case 0xa => 0xc0 case 0xb => 0xfe case 0xc => 0x78 case 0xd => 0xcd case 0xe => 0x5a case _ => 0xf4)
    case 0xc => (match b & 0x0F
      case 0x0 => 0x1f case 0x1 => 0xdd case 0x2 => 0xa8 case 0x3 => 0x33 case 0x4 => 0x88 case 0x5 => 0x07 case 0x6 => 0xc7 case 0x7 => 0x31
      case 0x8 => 0xb1 case 0x9 => 0x12 case 0xa => 0x10 case 0xb => 0x59 case 0xc => 0x27 case 0xd => 0x80 case 0xe => 0xec case _ => 0x5f)
    case 0xd => (match b & 0x0F
      case 0x0 => 0x60 case 0x1 => 0x51 case 0x2 => 0x7f case 0x3 => 0xa9 case 0x4 => 0x19 case 0x5 => 0xb5 case 0x6 => 0x4a case 0x7 => 0x0d
      case 0x8 => 0x2d case 0x9 => 0xe5 case 0xa => 0x7a case 0xb => 0x9f case 0xc => 0x93 case 0xd => 0xc9 case 0xe => 0x9c case _ => 0xef)
    case 0xe => (match b & 0x0F
      case 0x0 => 0xa0 case 0x1 => 0xe0 case 0x2 => 0x3b case 0x3 => 0x4d case 0x4 => 0xae case 0x5 => 0x2a case 0x6 => 0xf5 case 0x7 => 0xb0
      case 0x8 => 0xc8 case 0x9 => 0xeb case 0xa => 0xbb case 0xb => 0x3c case 0xc => 0x83 case 0xd => 0x53 case 0xe => 0x99 case _ => 0x61)
    case _ => (match b & 0x0F
      case 0x0 => 0x17 case 0x1 => 0x2b case 0x2 => 0x04 case 0x3 => 0x7e case 0x4 => 0xba case 0x5 => 0x77 case 0x6 => 0xd6 case 0x7 => 0x26
      case 0x8 => 0xe1 case 0x9 => 0x69 case 0xa => 0x14 case 0xb => 0x63 case 0xc => 0x55 case 0xd => 0x21 case 0xe => 0x0c case _ => 0x7d)
  }

  // The two tables undo each other on all 256 bytes; the case split keeps each solver query small.
  lemma InvSboxUndoesSbox(b: Byte)
    ensures InvSbox(Sbox(b)) == b
  {
    if b < 0x40 {
      assert InvSbox(Sbox(b)) == b;
    } else if b < 0x80 {
      assert InvSbox(Sbox(b)) == b;
    } else if b < 0xC0 {
      assert InvSbox(Sbox(b)) == b;
    }
  }

  lemma SboxUndoesInvSbox(b: Byte)
    ensures Sbox(InvSbox(b)) == b
  {
    if b < 0x40 {
      assert Sbox(InvSbox(b)) == b;
    } else if b < 0x80 {
      assert Sbox(InvSbox(b)) == b;
    } else if b < 0xC0 {
      assert Sbox(InvSbox(b)) == b;
    }
  }

  // FIPS 197, section 5.2: the round constant of words 4, 8, ..., 40.
  function Rcon(i: nat): Byte {
    match i
    case 0 => 0x01 case 1 => 0x02 case 2 => 0x04 case 3 => 0x08 case 4 => 0x10
    case 5 => 0x20 case 6 => 0x40 case 7 => 0x80 case 8 => 0x1b case _ => 0x36
  }
}
