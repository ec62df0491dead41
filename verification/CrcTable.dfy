/** The table that the program is shipped with is the table that make_crc_table builds. */
module CrcTable {
  import opened Crc32

  /** Sixteen entries from entry k on. */
  ghost predicate IsRow(s: seq<bv32>, k: nat) {
    |s| == 16 && k + 16 <= 256 && forall i :: 0 <= i < 16 ==> s[i] == EntryAt(k + i)
  }

  lemma RowFrom(s: seq<bv32>, k: nat)
    requires |s| == 16 && k + 16 <= 256 && Eight(s, k, 0) && Eight(s, k, 8)
    ensures IsRow(s, k)
  {
    hide Eight, EntryAt;
    forall i | 0 <= i < 16 ensures s[i] == EntryAt(k + i) { OneOf(s, k, i / 8 * 8, i); }
  }

  /** Eight of them, from place o on. */
  ghost predicate Eight(s: seq<bv32>, k: nat, o: nat)
    requires |s| == 16 && k + 16 <= 256 && o + 8 <= 16
  {
    && s[o] == EntryAt(k + o) && s[o + 1] == EntryAt(k + o + 1)
    && s[o + 2] == EntryAt(k + o + 2) && s[o + 3] == EntryAt(k + o + 3)
    && s[o + 4] == EntryAt(k + o + 4) && s[o + 5] == EntryAt(k + o + 5)
    && s[o + 6] == EntryAt(k + o + 6) && s[o + 7] == EntryAt(k + o + 7)
  }

  lemma OneOf(s: seq<bv32>, k: nat, o: nat, i: nat)
    requires |s| == 16 && k + 16 <= 256 && o + 8 <= 16 && Eight(s, k, o) && o <= i < o + 8
    ensures s[i] == EntryAt(k + i)
  {
    hide EntryAt;
  }

  const ROW0: seq<bv32> := [
    0x00000000, 0x77073096, 0xee0e612c, 0x990951ba, 0x076dc419, 0x706af48f, 0xe963a535, 0x9e6495a3,
    0x0edb8832, 0x79dcb8a4, 0xe0d5e91e, 0x97d2d988, 0x09b64c2b, 0x7eb17cbd, 0xe7b82d07, 0x90bf1d91]

  lemma Values0()
    ensures EntryAt(0) == 0x00000000 && EntryAt(1) == 0x77073096 && EntryAt(2) == 0xee0e612c && EntryAt(3) == 0x990951ba
    ensures EntryAt(4) == 0x076dc419 && EntryAt(5) == 0x706af48f && EntryAt(6) == 0xe963a535 && EntryAt(7) == 0x9e6495a3
    ensures EntryAt(8) == 0x0edb8832 && EntryAt(9) == 0x79dcb8a4
    ensures EntryAt(10) == 0xe0d5e91e && EntryAt(11) == 0x97d2d988
    ensures EntryAt(12) == 0x09b64c2b && EntryAt(13) == 0x7eb17cbd
    ensures EntryAt(14) == 0xe7b82d07 && EntryAt(15) == 0x90bf1d91
  {
    hide EntryAt;
    Values0Low();
    Values0High();
  }

  lemma Values0Low()
    ensures EntryAt(0) == 0x00000000 && EntryAt(1) == 0x77073096 && EntryAt(2) == 0xee0e612c && EntryAt(3) == 0x990951ba
    ensures EntryAt(4) == 0x076dc419 && EntryAt(5) == 0x706af48f && EntryAt(6) == 0xe963a535 && EntryAt(7) == 0x9e6495a3
  {}

  lemma Values0High()
    ensures EntryAt(8) == 0x0edb8832 && EntryAt(9) == 0x79dcb8a4
    ensures EntryAt(10) == 0xe0d5e91e && EntryAt(11) == 0x97d2d988
    ensures EntryAt(12) == 0x09b64c2b && EntryAt(13) == 0x7eb17cbd
    ensures EntryAt(14) == 0xe7b82d07 && EntryAt(15) == 0x90bf1d91
  {}

  lemma Row0()
    ensures IsRow(ROW0, 0)
  {
    hide EntryAt, IsRow;
    Values0();
    RowFrom(ROW0, 0);
  }

  const ROW1: seq<bv32> := [
    0x1db71064, 0x6ab020f2, 0xf3b97148, 0x84be41de, 0x1adad47d, 0x6ddde4eb, 0xf4d4b551, 0x83d385c7,
    0x136c9856, 0x646ba8c0, 0xfd62f97a, 0x8a65c9ec, 0x14015c4f, 0x63066cd9, 0xfa0f3d63, 0x8d080df5]

  lemma Values1()
    ensures EntryAt(16) == 0x1db71064 && EntryAt(17) == 0x6ab020f2
    ensures EntryAt(18) == 0xf3b97148 && EntryAt(19) == 0x84be41de
    ensures EntryAt(20) == 0x1adad47d && EntryAt(21) == 0x6ddde4eb
    ensures EntryAt(22) == 0xf4d4b551 && EntryAt(23) == 0x83d385c7
    ensures EntryAt(24) == 0x136c9856 && EntryAt(25) == 0x646ba8c0
    ensures EntryAt(26) == 0xfd62f97a && EntryAt(27) == 0x8a65c9ec
    ensures EntryAt(28) == 0x14015c4f && EntryAt(29) == 0x63066cd9
    ensures EntryAt(30) == 0xfa0f3d63 && EntryAt(31) == 0x8d080df5
  {}

  lemma Row1()
    ensures IsRow(ROW1, 16)
  {
    hide EntryAt, IsRow;
    Values1();
    RowFrom(ROW1, 16);
  }

  const ROW2: seq<bv32> := [
    0x3b6e20c8, 0x4c69105e, 0xd56041e4, 0xa2677172, 0x3c03e4d1, 0x4b04d447, 0xd20d85fd, 0xa50ab56b,
    0x35b5a8fa, 0x42b2986c, 0xdbbbc9d6, 0xacbcf940, 0x32d86ce3, 0x45df5c75, 0xdcd60dcf, 0xabd13d59]

  lemma Values2()
    ensures EntryAt(32) == 0x3b6e20c8 && EntryAt(33) == 0x4c69105e
    ensures EntryAt(34) == 0xd56041e4 && EntryAt(35) == 0xa2677172
    ensures EntryAt(36) == 0x3c03e4d1 && EntryAt(37) == 0x4b04d447
    ensures EntryAt(38) == 0xd20d85fd && EntryAt(39) == 0xa50ab56b
    ensures EntryAt(40) == 0x35b5a8fa && EntryAt(41) == 0x42b2986c
    ensures EntryAt(42) == 0xdbbbc9d6 && EntryAt(43) == 0xacbcf940
    ensures EntryAt(44) == 0x32d86ce3 && EntryAt(45) == 0x45df5c75
    ensures EntryAt(46) == 0xdcd60dcf && EntryAt(47) == 0xabd13d59
  {}

  lemma Row2()
    ensures IsRow(ROW2, 32)
  {
    hide EntryAt, IsRow;
    Values2();
    RowFrom(ROW2, 32);
  }

  const ROW3: seq<bv32> := [
    0x26d930ac, 0x51de003a, 0xc8d75180, 0xbfd06116, 0x21b4f4b5, 0x56b3c423, 0xcfba9599, 0xb8bda50f,
    0x2802b89e, 0x5f058808, 0xc60cd9b2, 0xb10be924, 0x2f6f7c87, 0x58684c11, 0xc1611dab, 0xb6662d3d]

  lemma Values3()
    ensures EntryAt(48) == 0x26d930ac && EntryAt(49) == 0x51de003a
    ensures EntryAt(50) == 0xc8d75180 && EntryAt(51) == 0xbfd06116
    ensures EntryAt(52) == 0x21b4f4b5 && EntryAt(53) == 0x56b3c423
    ensures EntryAt(54) == 0xcfba9599 && EntryAt(55) == 0xb8bda50f
    ensures EntryAt(56) == 0x2802b89e && EntryAt(57) == 0x5f058808
    ensures EntryAt(58) == 0xc60cd9b2 && EntryAt(59) == 0xb10be924
    ensures EntryAt(60) == 0x2f6f7c87 && EntryAt(61) == 0x58684c11
    ensures EntryAt(62) == 0xc1611dab && EntryAt(63) == 0xb6662d3d
  {}

  lemma Row3()
    ensures IsRow(ROW3, 48)
  {
    hide EntryAt, IsRow;
    Values3();
    RowFrom(ROW3, 48);
  }

  const ROW4: seq<bv32> := [
    0x76dc4190, 0x01db7106, 0x98d220bc, 0xefd5102a, 0x71b18589, 0x06b6b51f, 0x9fbfe4a5, 0xe8b8d433,
    0x7807c9a2, 0x0f00f934, 0x9609a88e, 0xe10e9818, 0x7f6a0dbb, 0x086d3d2d, 0x91646c97, 0xe6635c01]

  lemma Values4()
    ensures EntryAt(64) == 0x76dc4190 && EntryAt(65) == 0x01db7106
    ensures EntryAt(66) == 0x98d220bc && EntryAt(67) == 0xefd5102a
    ensures EntryAt(68) == 0x71b18589 && EntryAt(69) == 0x06b6b51f
    ensures EntryAt(70) == 0x9fbfe4a5 && EntryAt(71) == 0xe8b8d433
    ensures EntryAt(72) == 0x7807c9a2 && EntryAt(73) == 0x0f00f934
    ensures EntryAt(74) == 0x9609a88e && EntryAt(75) == 0xe10e9818
    ensures EntryAt(76) == 0x7f6a0dbb && EntryAt(77) == 0x086d3d2d
    ensures EntryAt(78) == 0x91646c97 && EntryAt(79) == 0xe6635c01
  {}

  lemma Row4()
    ensures IsRow(ROW4, 64)
  {
    hide EntryAt, IsRow;
    Values4();
    RowFrom(ROW4, 64);
  }

  const ROW5: seq<bv32> := [
    0x6b6b51f4, 0x1c6c6162, 0x856530d8, 0xf262004e, 0x6c0695ed, 0x1b01a57b, 0x8208f4c1, 0xf50fc457,
    0x65b0d9c6, 0x12b7e950, 0x8bbeb8ea, 0xfcb9887c, 0x62dd1ddf, 0x15da2d49, 0x8cd37cf3, 0xfbd44c65]

  lemma Values5()
    ensures EntryAt(80) == 0x6b6b51f4 && EntryAt(81) == 0x1c6c6162
    ensures EntryAt(82) == 0x856530d8 && EntryAt(83) == 0xf262004e
    ensures EntryAt(84) == 0x6c0695ed && EntryAt(85) == 0x1b01a57b
    ensures EntryAt(86) == 0x8208f4c1 && EntryAt(87) == 0xf50fc457
    ensures EntryAt(88) == 0x65b0d9c6 && EntryAt(89) == 0x12b7e950
    ensures EntryAt(90) == 0x8bbeb8ea && EntryAt(91) == 0xfcb9887c
    ensures EntryAt(92) == 0x62dd1ddf && EntryAt(93) == 0x15da2d49
    ensures EntryAt(94) == 0x8cd37cf3 && EntryAt(95) == 0xfbd44c65
  {}

  lemma Row5()
    ensures IsRow(ROW5, 80)
  {
    hide EntryAt, IsRow;
    Values5();
    RowFrom(ROW5, 80);
  }

  const ROW6: seq<bv32> := [
    0x4db26158, 0x3ab551ce, 0xa3bc0074, 0xd4bb30e2, 0x4adfa541, 0x3dd895d7, 0xa4d1c46d, 0xd3d6f4fb,
    0x4369e96a, 0x346ed9fc, 0xad678846, 0xda60b8d0, 0x44042d73, 0x33031de5, 0xaa0a4c5f, 0xdd0d7cc9]

  lemma Values6()
    ensures EntryAt(96) == 0x4db26158 && EntryAt(97) == 0x3ab551ce
    ensures EntryAt(98) == 0xa3bc0074 && EntryAt(99) == 0xd4bb30e2
    ensures EntryAt(100) == 0x4adfa541 && EntryAt(101) == 0x3dd895d7
    ensures EntryAt(102) == 0xa4d1c46d && EntryAt(103) == 0xd3d6f4fb
    ensures EntryAt(104) == 0x4369e96a && EntryAt(105) == 0x346ed9fc
    ensures EntryAt(106) == 0xad678846 && EntryAt(107) == 0xda60b8d0
    ensures EntryAt(108) == 0x44042d73 && EntryAt(109) == 0x33031de5
    ensures EntryAt(110) == 0xaa0a4c5f && EntryAt(111) == 0xdd0d7cc9
  {}

  lemma Row6()
    ensures IsRow(ROW6, 96)
  {
    hide EntryAt, IsRow;
    Values6();
    RowFrom(ROW6, 96);
  }

  const ROW7: seq<bv32> := [
    0x5005713c, 0x270241aa, 0xbe0b1010, 0xc90c2086, 0x5768b525, 0x206f85b3, 0xb966d409, 0xce61e49f,
    0x5edef90e, 0x29d9c998, 0xb0d09822, 0xc7d7a8b4, 0x59b33d17, 0x2eb40d81, 0xb7bd5c3b, 0xc0ba6cad]

  lemma Values7()
    ensures EntryAt(112) == 0x5005713c && EntryAt(113) == 0x270241aa
    ensures EntryAt(114) == 0xbe0b1010 && EntryAt(115) == 0xc90c2086
    ensures EntryAt(116) == 0x5768b525 && EntryAt(117) == 0x206f85b3
    ensures EntryAt(118) == 0xb966d409 && EntryAt(119) == 0xce61e49f
    ensures EntryAt(120) == 0x5edef90e && EntryAt(121) == 0x29d9c998
    ensures EntryAt(122) == 0xb0d09822 && EntryAt(123) == 0xc7d7a8b4
    ensures EntryAt(124) == 0x59b33d17 && EntryAt(125) == 0x2eb40d81
    ensures EntryAt(126) == 0xb7bd5c3b && EntryAt(127) == 0xc0ba6cad
  {}

  lemma Row7()
    ensures IsRow(ROW7, 112)
  {
    hide EntryAt, IsRow;
    Values7();
    RowFrom(ROW7, 112);
  }

  const ROW8: seq<bv32> := [
    0xedb88320, 0x9abfb3b6, 0x03b6e20c, 0x74b1d29a, 0xead54739, 0x9dd277af, 0x04db2615, 0x73dc1683,
    0xe3630b12, 0x94643b84, 0x0d6d6a3e, 0x7a6a5aa8, 0xe40ecf0b, 0x9309ff9d, 0x0a00ae27, 0x7d079eb1]

  lemma Values8()
    ensures EntryAt(128) == 0xedb88320 && EntryAt(129) == 0x9abfb3b6
    ensures EntryAt(130) == 0x03b6e20c && EntryAt(131) == 0x74b1d29a
    ensures EntryAt(132) == 0xead54739 && EntryAt(133) == 0x9dd277af
    ensures EntryAt(134) == 0x04db2615 && EntryAt(135) == 0x73dc1683
    ensures EntryAt(136) == 0xe3630b12 && EntryAt(137) == 0x94643b84
    ensures EntryAt(138) == 0x0d6d6a3e && EntryAt(139) == 0x7a6a5aa8
    ensures EntryAt(140) == 0xe40ecf0b && EntryAt(141) == 0x9309ff9d
    ensures EntryAt(142) == 0x0a00ae27 && EntryAt(143) == 0x7d079eb1
  {}

  lemma Row8()
    ensures IsRow(ROW8, 128)
  {
    hide EntryAt, IsRow;
    Values8();
    RowFrom(ROW8, 128);
  }

  const ROW9: seq<bv32> := [
    0xf00f9344, 0x8708a3d2, 0x1e01f268, 0x6906c2fe, 0xf762575d, 0x806567cb, 0x196c3671, 0x6e6b06e7,
    0xfed41b76, 0x89d32be0, 0x10da7a5a, 0x67dd4acc, 0xf9b9df6f, 0x8ebeeff9, 0x17b7be43, 0x60b08ed5]

  lemma Values9()
    ensures EntryAt(144) == 0xf00f9344 && EntryAt(145) == 0x8708a3d2
    ensures EntryAt(146) == 0x1e01f268 && EntryAt(147) == 0x6906c2fe
    ensures EntryAt(148) == 0xf762575d && EntryAt(149) == 0x806567cb
    ensures EntryAt(150) == 0x196c3671 && EntryAt(151) == 0x6e6b06e7
    ensures EntryAt(152) == 0xfed41b76 && EntryAt(153) == 0x89d32be0
    ensures EntryAt(154) == 0x10da7a5a && EntryAt(155) == 0x67dd4acc
    ensures EntryAt(156) == 0xf9b9df6f && EntryAt(157) == 0x8ebeeff9
    ensures EntryAt(158) == 0x17b7be43 && EntryAt(159) == 0x60b08ed5
  {}

  lemma Row9()
    ensures IsRow(ROW9, 144)
  {
    hide EntryAt, IsRow;
    Values9();
    RowFrom(ROW9, 144);
  }

  const ROWA: seq<bv32> := [
    0xd6d6a3e8, 0xa1d1937e, 0x38d8c2c4, 0x4fdff252, 0xd1bb67f1, 0xa6bc5767, 0x3fb506dd, 0x48b2364b,
    0xd80d2bda, 0xaf0a1b4c, 0x36034af6, 0x41047a60, 0xdf60efc3, 0xa867df55, 0x316e8eef, 0x4669be79]

  lemma ValuesA()
    ensures EntryAt(160) == 0xd6d6a3e8 && EntryAt(161) == 0xa1d1937e
    ensures EntryAt(162) == 0x38d8c2c4 && EntryAt(163) == 0x4fdff252
    ensures EntryAt(164) == 0xd1bb67f1 && EntryAt(165) == 0xa6bc5767
    ensures EntryAt(166) == 0x3fb506dd && EntryAt(167) == 0x48b2364b
    ensures EntryAt(168) == 0xd80d2bda && EntryAt(169) == 0xaf0a1b4c
    ensures EntryAt(170) == 0x36034af6 && EntryAt(171) == 0x41047a60
    ensures EntryAt(172) == 0xdf60efc3 && EntryAt(173) == 0xa867df55
    ensures EntryAt(174) == 0x316e8eef && EntryAt(175) == 0x4669be79
  {}

  lemma RowA()
    ensures IsRow(ROWA, 160)
  {
    hide EntryAt, IsRow;
    ValuesA();
    RowFrom(ROWA, 160);
  }

  const ROWB: seq<bv32> := [
    0xcb61b38c, 0xbc66831a, 0x256fd2a0, 0x5268e236, 0xcc0c7795, 0xbb0b4703, 0x220216b9, 0x5505262f,
    0xc5ba3bbe, 0xb2bd0b28, 0x2bb45a92, 0x5cb36a04, 0xc2d7ffa7, 0xb5d0cf31, 0x2cd99e8b, 0x5bdeae1d]

  lemma ValuesB()
    ensures EntryAt(176) == 0xcb61b38c && EntryAt(177) == 0xbc66831a
    ensures EntryAt(178) == 0x256fd2a0 && EntryAt(179) == 0x5268e236
    ensures EntryAt(180) == 0xcc0c7795 && EntryAt(181) == 0xbb0b4703
    ensures EntryAt(182) == 0x220216b9 && EntryAt(183) == 0x5505262f
    ensures EntryAt(184) == 0xc5ba3bbe && EntryAt(185) == 0xb2bd0b28
    ensures EntryAt(186) == 0x2bb45a92 && EntryAt(187) == 0x5cb36a04
    ensures EntryAt(188) == 0xc2d7ffa7 && EntryAt(189) == 0xb5d0cf31
    ensures EntryAt(190) == 0x2cd99e8b && EntryAt(191) == 0x5bdeae1d
  {}

  lemma RowB()
    ensures IsRow(ROWB, 176)
  {
    hide EntryAt, IsRow;
    ValuesB();
    RowFrom(ROWB, 176);
  }

  const ROWC: seq<bv32> := [
    0x9b64c2b0, 0xec63f226, 0x756aa39c, 0x026d930a, 0x9c0906a9, 0xeb0e363f, 0x72076785, 0x05005713,
    0x95bf4a82, 0xe2b87a14, 0x7bb12bae, 0x0cb61b38, 0x92d28e9b, 0xe5d5be0d, 0x7cdcefb7, 0x0bdbdf21]

  lemma ValuesC()
    ensures EntryAt(192) == 0x9b64c2b0 && EntryAt(193) == 0xec63f226
    ensures EntryAt(194) == 0x756aa39c && EntryAt(195) == 0x026d930a
    ensures EntryAt(196) == 0x9c0906a9 && EntryAt(197) == 0xeb0e363f
    ensures EntryAt(198) == 0x72076785 && EntryAt(199) == 0x05005713
    ensures EntryAt(200) == 0x95bf4a82 && EntryAt(201) == 0xe2b87a14
    ensures EntryAt(202) == 0x7bb12bae && EntryAt(203) == 0x0cb61b38
    ensures EntryAt(204) == 0x92d28e9b && EntryAt(205) == 0xe5d5be0d
    ensures EntryAt(206) == 0x7cdcefb7 && EntryAt(207) == 0x0bdbdf21
  {}

  lemma RowC()
    ensures IsRow(ROWC, 192)
  {
    hide EntryAt, IsRow;
    ValuesC();
    RowFrom(ROWC, 192);
  }

  const ROWD: seq<bv32> := [
    0x86d3d2d4, 0xf1d4e242, 0x68ddb3f8, 0x1fda836e, 0x81be16cd, 0xf6b9265b, 0x6fb077e1, 0x18b74777,
    0x88085ae6, 0xff0f6a70, 0x66063bca, 0x11010b5c, 0x8f659eff, 0xf862ae69, 0x616bffd3, 0x166ccf45]

  lemma ValuesD()
    ensures EntryAt(208) == 0x86d3d2d4 && EntryAt(209) == 0xf1d4e242
    ensures EntryAt(210) == 0x68ddb3f8 && EntryAt(211) == 0x1fda836e
    ensures EntryAt(212) == 0x81be16cd && EntryAt(213) == 0xf6b9265b
    ensures EntryAt(214) == 0x6fb077e1 && EntryAt(215) == 0x18b74777
    ensures EntryAt(216) == 0x88085ae6 && EntryAt(217) == 0xff0f6a70
    ensures EntryAt(218) == 0x66063bca && EntryAt(219) == 0x11010b5c
    ensures EntryAt(220) == 0x8f659eff && EntryAt(221) == 0xf862ae69
    ensures EntryAt(222) == 0x616bffd3 && EntryAt(223) == 0x166ccf45
  {}

  lemma RowD()
    ensures IsRow(ROWD, 208)
  {
    hide EntryAt, IsRow;
    ValuesD();
    RowFrom(ROWD, 208);
  }

  const ROWE: seq<bv32> := [
    0xa00ae278, 0xd70dd2ee, 0x4e048354, 0x3903b3c2, 0xa7672661, 0xd06016f7, 0x4969474d, 0x3e6e77db,
    0xaed16a4a, 0xd9d65adc, 0x40df0b66, 0x37d83bf0, 0xa9bcae53, 0xdebb9ec5, 0x47b2cf7f, 0x30b5ffe9]

  lemma ValuesE()
    ensures EntryAt(224) == 0xa00ae278 && EntryAt(225) == 0xd70dd2ee
    ensures EntryAt(226) == 0x4e048354 && EntryAt(227) == 0x3903b3c2
    ensures EntryAt(228) == 0xa7672661 && EntryAt(229) == 0xd06016f7
    ensures EntryAt(230) == 0x4969474d && EntryAt(231) == 0x3e6e77db
    ensures EntryAt(232) == 0xaed16a4a && EntryAt(233) == 0xd9d65adc
    ensures EntryAt(234) == 0x40df0b66 && EntryAt(235) == 0x37d83bf0
    ensures EntryAt(236) == 0xa9bcae53 && EntryAt(237) == 0xdebb9ec5
    ensures EntryAt(238) == 0x47b2cf7f && EntryAt(239) == 0x30b5ffe9
  {}

  lemma RowE()
    ensures IsRow(ROWE, 224)
  {
    hide EntryAt, IsRow;
    ValuesE();
    RowFrom(ROWE, 224);
  }

  const ROWF: seq<bv32> := [
    0xbdbdf21c, 0xcabac28a, 0x53b39330, 0x24b4a3a6, 0xbad03605, 0xcdd70693, 0x54de5729, 0x23d967bf,
    0xb3667a2e, 0xc4614ab8, 0x5d681b02, 0x2a6f2b94, 0xb40bbe37, 0xc30c8ea1, 0x5a05df1b, 0x2d02ef8d]

  lemma ValuesF()
    ensures EntryAt(240) == 0xbdbdf21c && EntryAt(241) == 0xcabac28a
    ensures EntryAt(242) == 0x53b39330 && EntryAt(243) == 0x24b4a3a6
    ensures EntryAt(244) == 0xbad03605 && EntryAt(245) == 0xcdd70693
    ensures EntryAt(246) == 0x54de5729 && EntryAt(247) == 0x23d967bf
    ensures EntryAt(248) == 0xb3667a2e && EntryAt(249) == 0xc4614ab8
    ensures EntryAt(250) == 0x5d681b02 && EntryAt(251) == 0x2a6f2b94
    ensures EntryAt(252) == 0xb40bbe37 && EntryAt(253) == 0xc30c8ea1
    ensures EntryAt(254) == 0x5a05df1b && EntryAt(255) == 0x2d02ef8d
  {}

  lemma RowF()
    ensures IsRow(ROWF, 240)
  {
    hide EntryAt, IsRow;
    ValuesF();
    RowFrom(ROWF, 240);
  }

  /** crc_table, from its start to entry |t|. */
  ghost predicate Starts(t: seq<bv32>) { |t| <= 256 && forall n :: 0 <= n < |t| ==> t[n] == EntryAt(n) }

  lemma Append(t: seq<bv32>, s: seq<bv32>, k: nat)
    requires Starts(t) && |t| == k && IsRow(s, k)
    ensures Starts(t + s) && |t + s| == k + 16
  {
    hide EntryAt;
  }

  const HALF0: seq<bv32> := ROW0 + ROW1 + ROW2 + ROW3 + ROW4 + ROW5 + ROW6 + ROW7
  const CRC_TABLE: seq<bv32> := HALF0 + ROW8 + ROW9 + ROWA + ROWB + ROWC + ROWD + ROWE + ROWF

  lemma Half0Ok()
    ensures Starts(HALF0) && |HALF0| == 128
  {
    hide Starts, IsRow;
    StartsNone();
    assert [] + ROW0 == ROW0;
    Row0(); Append([], ROW0, 0);
    Row1(); Append(ROW0, ROW1, 16);
    Row2(); Append(ROW0 + ROW1, ROW2, 32);
    Row3(); Append(ROW0 + ROW1 + ROW2, ROW3, 48);
    Row4(); Append(ROW0 + ROW1 + ROW2 + ROW3, ROW4, 64);
    Row5(); Append(ROW0 + ROW1 + ROW2 + ROW3 + ROW4, ROW5, 80);
    Row6(); Append(ROW0 + ROW1 + ROW2 + ROW3 + ROW4 + ROW5, ROW6, 96);
    Row7(); Append(ROW0 + ROW1 + ROW2 + ROW3 + ROW4 + ROW5 + ROW6, ROW7, 112);
  }

  lemma StartsNone()
    ensures Starts([])
  {}

  lemma CrcTableOk()
    ensures IsTable(CRC_TABLE)
  {
    hide IsRow;
    Half0Ok();
    Row8(); Append(HALF0, ROW8, 128);
    Row9(); Append(HALF0 + ROW8, ROW9, 144);
    RowA(); Append(HALF0 + ROW8 + ROW9, ROWA, 160);
    RowB(); Append(HALF0 + ROW8 + ROW9 + ROWA, ROWB, 176);
    RowC(); Append(HALF0 + ROW8 + ROW9 + ROWA + ROWB, ROWC, 192);
    RowD(); Append(HALF0 + ROW8 + ROW9 + ROWA + ROWB + ROWC, ROWD, 208);
    RowE(); Append(HALF0 + ROW8 + ROW9 + ROWA + ROWB + ROWC + ROWD, ROWE, 224);
    RowF(); Append(HALF0 + ROW8 + ROW9 + ROWA + ROWB + ROWC + ROWD + ROWE, ROWF, 240);
  }
}
