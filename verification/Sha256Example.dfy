/** The standard's digest of `abc`, round by round.  */
module Sha256Example {
  import opened Sha256

  /** The padded message, one block.  */
  const MESSAGE: seq<Byte> := [0x61, 0x62, 0x63, 0x80] + seq(52, _ => 0) + [0, 0, 0, 0, 0, 0, 0, 24]

  lemma LengthOfThree()
    ensures LengthField(3) == [0, 0, 0, 0, 0, 0, 0, 24]
  {
    assert BigEndian(0, 4) == [0, 0, 0, 0];
    assert BigEndian(0, 7) == [0, 0, 0, 0, 0, 0, 0];
  }

  lemma OneBlock()
    ensures Padded([0x61, 0x62, 0x63]) == MESSAGE
  {
    LengthOfThree();
  }

  lemma ZeroWord(t: nat)
    requires 0 < t < 15
    ensures Schedule(MESSAGE, t) == 0
  {
    assert MESSAGE[4 * t] == MESSAGE[4 * t + 1] == MESSAGE[4 * t + 2] == MESSAGE[4 * t + 3] == 0;
  }

  lemma Words0()
    ensures Schedule(MESSAGE, 0) == 0x61626380
    ensures forall t :: 0 < t < 15 ==> Schedule(MESSAGE, t) == 0
    ensures Schedule(MESSAGE, 15) == 0x00000018
  {
    forall t | 0 < t < 15 ensures Schedule(MESSAGE, t) == 0 {
      ZeroWord(t);
    }
  }

  lemma Words2()
    ensures Schedule(MESSAGE, 16) == 0x61626380 && Schedule(MESSAGE, 17) == 0x000f0000
    ensures Schedule(MESSAGE, 18) == 0x7da86405 && Schedule(MESSAGE, 19) == 0x600003c6
    ensures Schedule(MESSAGE, 20) == 0x3e9d7b78 && Schedule(MESSAGE, 21) == 0x0183fc00
    ensures Schedule(MESSAGE, 22) == 0x12dcbfdb && Schedule(MESSAGE, 23) == 0xe2e2c38e
  {
    Words0();
  }

  lemma Words3()
    ensures Schedule(MESSAGE, 24) == 0xc8215c1a && Schedule(MESSAGE, 25) == 0xb73679a2
    ensures Schedule(MESSAGE, 26) == 0xe5bc3909 && Schedule(MESSAGE, 27) == 0x32663c5b
    ensures Schedule(MESSAGE, 28) == 0x9d209d67 && Schedule(MESSAGE, 29) == 0xec8726cb
    ensures Schedule(MESSAGE, 30) == 0x702138a4 && Schedule(MESSAGE, 31) == 0xd3b7973b
  {
    Words0();
    Words2();
  }

  lemma Words4()
    ensures Schedule(MESSAGE, 32) == 0x93f5997f && Schedule(MESSAGE, 33) == 0x3b68ba73
    ensures Schedule(MESSAGE, 34) == 0xaff4ffc1 && Schedule(MESSAGE, 35) == 0xf10a5c62
    ensures Schedule(MESSAGE, 36) == 0x0a8b3996 && Schedule(MESSAGE, 37) == 0x72af830a
    ensures Schedule(MESSAGE, 38) == 0x9409e33e && Schedule(MESSAGE, 39) == 0x24641522
  {
    Words2();
    Words3();
  }

  lemma Words5()
    ensures Schedule(MESSAGE, 40) == 0x9f47bf94 && Schedule(MESSAGE, 41) == 0xf0a64f5a
    ensures Schedule(MESSAGE, 42) == 0x3e246a79 && Schedule(MESSAGE, 43) == 0x27333ba3
    ensures Schedule(MESSAGE, 44) == 0x0c4763f2 && Schedule(MESSAGE, 45) == 0x840abf27
    ensures Schedule(MESSAGE, 46) == 0x7a290d5d && Schedule(MESSAGE, 47) == 0x065c43da
  {
    Words3();
    Words4();
  }

  lemma Words6()
    ensures Schedule(MESSAGE, 48) == 0xfb3e89cb && Schedule(MESSAGE, 49) == 0xcc7617db
    ensures Schedule(MESSAGE, 50) == 0xb9e66c34 && Schedule(MESSAGE, 51) == 0xa9993667
    ensures Schedule(MESSAGE, 52) == 0x84badedd && Schedule(MESSAGE, 53) == 0xc21462bc
    ensures Schedule(MESSAGE, 54) == 0x1487472c && Schedule(MESSAGE, 55) == 0xb20f7a99
  {
    Words4();
    Words5();
  }

  lemma Words7()
    ensures Schedule(MESSAGE, 56) == 0xef57b9cd && Schedule(MESSAGE, 57) == 0xebe6b238
    ensures Schedule(MESSAGE, 58) == 0x9fe3095e && Schedule(MESSAGE, 59) == 0x78bc8d4b
    ensures Schedule(MESSAGE, 60) == 0xa43fcf15 && Schedule(MESSAGE, 61) == 0x668b2ff8
    ensures Schedule(MESSAGE, 62) == 0xeeaba2cc && Schedule(MESSAGE, 63) == 0x12b1edeb
  {
    Words5();
    Words6();
  }

  /** The working variables a round further, its two new ones given.  */
  function Moved(v: Vars, a: Word, e: Word): Vars {
    Vars(a, v.a, v.b, v.c, e, v.e, v.f, v.g)
  }

  /** One round of the block, its constant and its word given.  */
  lemma Turn(i: nat, v: Vars, k: Word, w: Word, next: Vars)
    requires i < 64 && Rounds(H0, MESSAGE, i) == v && K[i] == k && Schedule(MESSAGE, i) == w
    requires Round(v, k, w) == next
    ensures Rounds(H0, MESSAGE, i + 1) == next
  {}

  lemma Start()
    ensures Rounds(H0, MESSAGE, 0) == H0
  {}

  lemma Rounds4()
    ensures Rounds(H0, MESSAGE, 4) ==
            Vars(0xd550f666, 0xc8c347a7, 0x5a6ad9ad, 0x5d6aebcd, 0x24e00850, 0xf92939eb, 0x78ce7989, 0xfa2a4622)
  {
    hide Rounds, Schedule;
    Start();
    Words0();
    var v0 := Vars(0x6a09e667, 0xbb67ae85, 0x3c6ef372, 0xa54ff53a, 0x510e527f, 0x9b05688c, 0x1f83d9ab, 0x5be0cd19);
    var v1 := Moved(v0, 0x5d6aebcd, 0xfa2a4622);
    assert Rounds(H0, MESSAGE, 1) == v1 by { Turn(0, v0, 0x428a2f98, 0x61626380, v1); }
    var v2 := Moved(v1, 0x5a6ad9ad, 0x78ce7989);
    assert Rounds(H0, MESSAGE, 2) == v2 by { Turn(1, v1, 0x71374491, 0x00000000, v2); }
    var v3 := Moved(v2, 0xc8c347a7, 0xf92939eb);
    assert Rounds(H0, MESSAGE, 3) == v3 by { Turn(2, v2, 0xb5c0fbcf, 0x00000000, v3); }
    var v4 := Moved(v3, 0xd550f666, 0x24e00850);
    assert Rounds(H0, MESSAGE, 4) == v4 by { Turn(3, v3, 0xe9b5dba5, 0x00000000, v4); }
  }

  lemma Rounds8()
    ensures Rounds(H0, MESSAGE, 8) ==
            Vars(0x85a07b5f, 0xe5030380, 0x2b4209f5, 0x04409a6a, 0x0c657a79, 0x9b27a401, 0x714260ad, 0x43ada245)
  {
    hide Rounds, Schedule;
    Rounds4();
    Words0();
    var v4 := Vars(0xd550f666, 0xc8c347a7, 0x5a6ad9ad, 0x5d6aebcd, 0x24e00850, 0xf92939eb, 0x78ce7989, 0xfa2a4622);
    var v5 := Moved(v4, 0x04409a6a, 0x43ada245);
    assert Rounds(H0, MESSAGE, 5) == v5 by { Turn(4, v4, 0x3956c25b, 0x00000000, v5); }
    var v6 := Moved(v5, 0x2b4209f5, 0x714260ad);
    assert Rounds(H0, MESSAGE, 6) == v6 by { Turn(5, v5, 0x59f111f1, 0x00000000, v6); }
    var v7 := Moved(v6, 0xe5030380, 0x9b27a401);
    assert Rounds(H0, MESSAGE, 7) == v7 by { Turn(6, v6, 0x923f82a4, 0x00000000, v7); }
    var v8 := Moved(v7, 0x85a07b5f, 0x0c657a79);
    assert Rounds(H0, MESSAGE, 8) == v8 by { Turn(7, v7, 0xab1c5ed5, 0x00000000, v8); }
  }

  lemma Rounds12()
    ensures Rounds(H0, MESSAGE, 12) ==
            Vars(0xf71fc5a9, 0x4798a3f4, 0x8c87346b, 0x8e04ecb9, 0x816fd6e9, 0x436b23e8, 0x1cc92596, 0x32ca2d8c)
  {
    hide Rounds, Schedule;
    Rounds8();
    Words0();
    var v8 := Vars(0x85a07b5f, 0xe5030380, 0x2b4209f5, 0x04409a6a, 0x0c657a79, 0x9b27a401, 0x714260ad, 0x43ada245);
    var v9 := Moved(v8, 0x8e04ecb9, 0x32ca2d8c);
    assert Rounds(H0, MESSAGE, 9) == v9 by { Turn(8, v8, 0xd807aa98, 0x00000000, v9); }
    var v10 := Moved(v9, 0x8c87346b, 0x1cc92596);
    assert Rounds(H0, MESSAGE, 10) == v10 by { Turn(9, v9, 0x12835b01, 0x00000000, v10); }
    var v11 := Moved(v10, 0x4798a3f4, 0x436b23e8);
    assert Rounds(H0, MESSAGE, 11) == v11 by { Turn(10, v10, 0x243185be, 0x00000000, v11); }
    var v12 := Moved(v11, 0xf71fc5a9, 0x816fd6e9);
    assert Rounds(H0, MESSAGE, 12) == v12 by { Turn(11, v11, 0x550c7dc3, 0x00000000, v12); }
  }

  lemma Rounds16()
    ensures Rounds(H0, MESSAGE, 16) ==
            Vars(0xb0fa238e, 0xc0645fde, 0xd932eb16, 0x87912990, 0x07590dcd, 0x0b92f20c, 0x745a48de, 0x1e578218)
  {
    hide Rounds, Schedule;
    Rounds12();
    Words0();
    var v12 := Vars(0xf71fc5a9, 0x4798a3f4, 0x8c87346b, 0x8e04ecb9, 0x816fd6e9, 0x436b23e8, 0x1cc92596, 0x32ca2d8c);
    var v13 := Moved(v12, 0x87912990, 0x1e578218);
    assert Rounds(H0, MESSAGE, 13) == v13 by { Turn(12, v12, 0x72be5d74, 0x00000000, v13); }
    var v14 := Moved(v13, 0xd932eb16, 0x745a48de);
    assert Rounds(H0, MESSAGE, 14) == v14 by { Turn(13, v13, 0x80deb1fe, 0x00000000, v14); }
    var v15 := Moved(v14, 0xc0645fde, 0x0b92f20c);
    assert Rounds(H0, MESSAGE, 15) == v15 by { Turn(14, v14, 0x9bdc06a7, 0x00000000, v15); }
    var v16 := Moved(v15, 0xb0fa238e, 0x07590dcd);
    assert Rounds(H0, MESSAGE, 16) == v16 by { Turn(15, v15, 0xc19bf174, 0x00000018, v16); }
  }

  lemma Rounds20()
    ensures Rounds(H0, MESSAGE, 20) ==
            Vars(0xe1f20c33, 0xfe777bbf, 0xc2fbd9d1, 0x21da9a9b, 0xb0638179, 0xcc899961, 0x846ee454, 0x8034229c)
  {
    hide Rounds, Schedule;
    Rounds16();
    Words2();
    var v16 := Vars(0xb0fa238e, 0xc0645fde, 0xd932eb16, 0x87912990, 0x07590dcd, 0x0b92f20c, 0x745a48de, 0x1e578218);
    var v17 := Moved(v16, 0x21da9a9b, 0x8034229c);
    assert Rounds(H0, MESSAGE, 17) == v17 by { Turn(16, v16, 0xe49b69c1, 0x61626380, v17); }
    var v18 := Moved(v17, 0xc2fbd9d1, 0x846ee454);
    assert Rounds(H0, MESSAGE, 18) == v18 by { Turn(17, v17, 0xefbe4786, 0x000f0000, v18); }
    var v19 := Moved(v18, 0xfe777bbf, 0xcc899961);
    assert Rounds(H0, MESSAGE, 19) == v19 by { Turn(18, v18, 0x0fc19dc6, 0x7da86405, v19); }
    var v20 := Moved(v19, 0xe1f20c33, 0xb0638179);
    assert Rounds(H0, MESSAGE, 20) == v20 by { Turn(19, v19, 0x240ca1cc, 0x600003c6, v20); }
  }

  lemma Rounds24()
    ensures Rounds(H0, MESSAGE, 24) ==
            Vars(0xc5d53d8d, 0xa7a3623f, 0xc2606d6d, 0x9dc68b63, 0xaa47c347, 0x49f5114a, 0xe1257970, 0x8ada8930)
  {
    hide Rounds, Schedule;
    Rounds20();
    Words2();
    var v20 := Vars(0xe1f20c33, 0xfe777bbf, 0xc2fbd9d1, 0x21da9a9b, 0xb0638179, 0xcc899961, 0x846ee454, 0x8034229c);
    var v21 := Moved(v20, 0x9dc68b63, 0x8ada8930);
    assert Rounds(H0, MESSAGE, 21) == v21 by { Turn(20, v20, 0x2de92c6f, 0x3e9d7b78, v21); }
    var v22 := Moved(v21, 0xc2606d6d, 0xe1257970);
    assert Rounds(H0, MESSAGE, 22) == v22 by { Turn(21, v21, 0x4a7484aa, 0x0183fc00, v22); }
    var v23 := Moved(v22, 0xa7a3623f, 0x49f5114a);
    assert Rounds(H0, MESSAGE, 23) == v23 by { Turn(22, v22, 0x5cb0a9dc, 0x12dcbfdb, v23); }
    var v24 := Moved(v23, 0xc5d53d8d, 0xaa47c347);
    assert Rounds(H0, MESSAGE, 24) == v24 by { Turn(23, v23, 0x76f988da, 0xe2e2c38e, v24); }
  }

  lemma Rounds28()
    ensures Rounds(H0, MESSAGE, 28) ==
            Vars(0x77d37528, 0xb62ec4bc, 0xcde8037d, 0x1c2c2838, 0xedffbff8, 0xc74c6516, 0x14383d8e, 0x2823ef91)
  {
    hide Rounds, Schedule;
    Rounds24();
    Words3();
    var v24 := Vars(0xc5d53d8d, 0xa7a3623f, 0xc2606d6d, 0x9dc68b63, 0xaa47c347, 0x49f5114a, 0xe1257970, 0x8ada8930);
    var v25 := Moved(v24, 0x1c2c2838, 0x2823ef91);
    assert Rounds(H0, MESSAGE, 25) == v25 by { Turn(24, v24, 0x983e5152, 0xc8215c1a, v25); }
    var v26 := Moved(v25, 0xcde8037d, 0x14383d8e);
    assert Rounds(H0, MESSAGE, 26) == v26 by { Turn(25, v25, 0xa831c66d, 0xb73679a2, v26); }
    var v27 := Moved(v26, 0xb62ec4bc, 0xc74c6516);
    assert Rounds(H0, MESSAGE, 27) == v27 by { Turn(26, v26, 0xb00327c8, 0xe5bc3909, v27); }
    var v28 := Moved(v27, 0x77d37528, 0xedffbff8);
    assert Rounds(H0, MESSAGE, 28) == v28 by { Turn(27, v27, 0xbf597fc7, 0x32663c5b, v28); }
  }

  lemma Rounds32()
    ensures Rounds(H0, MESSAGE, 32) ==
            Vars(0x73b33bf5, 0xea992a22, 0xa0060b30, 0x363482c9, 0xba591112, 0x0109ab3a, 0xade79437, 0x6112a3b7)
  {
    hide Rounds, Schedule;
    Rounds28();
    Words3();
    var v28 := Vars(0x77d37528, 0xb62ec4bc, 0xcde8037d, 0x1c2c2838, 0xedffbff8, 0xc74c6516, 0x14383d8e, 0x2823ef91);
    var v29 := Moved(v28, 0x363482c9, 0x6112a3b7);
    assert Rounds(H0, MESSAGE, 29) == v29 by { Turn(28, v28, 0xc6e00bf3, 0x9d209d67, v29); }
    var v30 := Moved(v29, 0xa0060b30, 0xade79437);
    assert Rounds(H0, MESSAGE, 30) == v30 by { Turn(29, v29, 0xd5a79147, 0xec8726cb, v30); }
    var v31 := Moved(v30, 0xea992a22, 0x0109ab3a);
    assert Rounds(H0, MESSAGE, 31) == v31 by { Turn(30, v30, 0x06ca6351, 0x702138a4, v31); }
    var v32 := Moved(v31, 0x73b33bf5, 0xba591112);
    assert Rounds(H0, MESSAGE, 32) == v32 by { Turn(31, v31, 0x14292967, 0xd3b7973b, v32); }
  }

  lemma Rounds36()
    ensures Rounds(H0, MESSAGE, 36) ==
            Vars(0x65a0cfe4, 0xa9a7738c, 0xfe604df5, 0x98e12507, 0xf4b002d6, 0x085f3833, 0x59249dd3, 0x9cd9f5f6)
  {
    hide Rounds, Schedule;
    Rounds32();
    Words4();
    var v32 := Vars(0x73b33bf5, 0xea992a22, 0xa0060b30, 0x363482c9, 0xba591112, 0x0109ab3a, 0xade79437, 0x6112a3b7);
    var v33 := Moved(v32, 0x98e12507, 0x9cd9f5f6);
    assert Rounds(H0, MESSAGE, 33) == v33 by { Turn(32, v32, 0x27b70a85, 0x93f5997f, v33); }
    var v34 := Moved(v33, 0xfe604df5, 0x59249dd3);
    assert Rounds(H0, MESSAGE, 34) == v34 by { Turn(33, v33, 0x2e1b2138, 0x3b68ba73, v34); }
    var v35 := Moved(v34, 0xa9a7738c, 0x085f3833);
    assert Rounds(H0, MESSAGE, 35) == v35 by { Turn(34, v34, 0x4d2c6dfc, 0xaff4ffc1, v35); }
    var v36 := Moved(v35, 0x65a0cfe4, 0xf4b002d6);
    assert Rounds(H0, MESSAGE, 36) == v36 by { Turn(35, v35, 0x53380d13, 0xf10a5c62, v36); }
  }

  lemma Rounds40()
    ensures Rounds(H0, MESSAGE, 40) ==
            Vars(0x79ea687a, 0x6dc57a8a, 0x34df1604, 0x41a65cb1, 0x1efbc0a0, 0xf0781bc8, 0xa507a53d, 0x0772a26b)
  {
    hide Rounds, Schedule;
    Rounds36();
    Words4();
    var v36 := Vars(0x65a0cfe4, 0xa9a7738c, 0xfe604df5, 0x98e12507, 0xf4b002d6, 0x085f3833, 0x59249dd3, 0x9cd9f5f6);
    var v37 := Moved(v36, 0x41a65cb1, 0x0772a26b);
    assert Rounds(H0, MESSAGE, 37) == v37 by { Turn(36, v36, 0x650a7354, 0x0a8b3996, v37); }
    var v38 := Moved(v37, 0x34df1604, 0xa507a53d);
    assert Rounds(H0, MESSAGE, 38) == v38 by { Turn(37, v37, 0x766a0abb, 0x72af830a, v38); }
    var v39 := Moved(v38, 0x6dc57a8a, 0xf0781bc8);
    assert Rounds(H0, MESSAGE, 39) == v39 by { Turn(38, v38, 0x81c2c92e, 0x9409e33e, v39); }
    var v40 := Moved(v39, 0x79ea687a, 0x1efbc0a0);
    assert Rounds(H0, MESSAGE, 40) == v40 by { Turn(39, v39, 0x92722c85, 0x24641522, v40); }
  }

  lemma Rounds44()
    ensures Rounds(H0, MESSAGE, 44) ==
            Vars(0x9d4baf93, 0x17aa0dfe, 0xdf46652f, 0xd6670766, 0xfda24c2e, 0xdecd4715, 0x838b2711, 0x26352d63)
  {
    hide Rounds, Schedule;
    Rounds40();
    Words5();
    var v40 := Vars(0x79ea687a, 0x6dc57a8a, 0x34df1604, 0x41a65cb1, 0x1efbc0a0, 0xf0781bc8, 0xa507a53d, 0x0772a26b);
    var v41 := Moved(v40, 0xd6670766, 0x26352d63);
    assert Rounds(H0, MESSAGE, 41) == v41 by { Turn(40, v40, 0xa2bfe8a1, 0x9f47bf94, v41); }
    var v42 := Moved(v41, 0xdf46652f, 0x838b2711);
    assert Rounds(H0, MESSAGE, 42) == v42 by { Turn(41, v41, 0xa81a664b, 0xf0a64f5a, v42); }
    var v43 := Moved(v42, 0x17aa0dfe, 0xdecd4715);
    assert Rounds(H0, MESSAGE, 43) == v43 by { Turn(42, v42, 0xc24b8b70, 0x3e246a79, v43); }
    var v44 := Moved(v43, 0x9d4baf93, 0xfda24c2e);
    assert Rounds(H0, MESSAGE, 44) == v44 by { Turn(43, v43, 0xc76c51a3, 0x27333ba3, v44); }
  }

  lemma Rounds48()
    ensures Rounds(H0, MESSAGE, 48) ==
            Vars(0x4172328d, 0xa14c14b0, 0x72ab4b91, 0x26628815, 0xfecf0bc6, 0xd57b94a9, 0xb7755da1, 0xa80f11f0)
  {
    hide Rounds, Schedule;
    Rounds44();
    Words5();
    var v44 := Vars(0x9d4baf93, 0x17aa0dfe, 0xdf46652f, 0xd6670766, 0xfda24c2e, 0xdecd4715, 0x838b2711, 0x26352d63);
    var v45 := Moved(v44, 0x26628815, 0xa80f11f0);
    assert Rounds(H0, MESSAGE, 45) == v45 by { Turn(44, v44, 0xd192e819, 0x0c4763f2, v45); }
    var v46 := Moved(v45, 0x72ab4b91, 0xb7755da1);
    assert Rounds(H0, MESSAGE, 46) == v46 by { Turn(45, v45, 0xd6990624, 0x840abf27, v46); }
    var v47 := Moved(v46, 0xa14c14b0, 0xd57b94a9);
    assert Rounds(H0, MESSAGE, 47) == v47 by { Turn(46, v46, 0xf40e3585, 0x7a290d5d, v47); }
    var v48 := Moved(v47, 0x4172328d, 0xfecf0bc6);
    assert Rounds(H0, MESSAGE, 48) == v48 by { Turn(47, v47, 0x106aa070, 0x065c43da, v48); }
  }

  lemma Rounds52()
    ensures Rounds(H0, MESSAGE, 52) ==
            Vars(0x886e7a22, 0x7a0508a1, 0xf11bfaa8, 0x05757ceb, 0x49231c1e, 0x52f1ccf7, 0x6e5c390c, 0xbd714038)
  {
    hide Rounds, Schedule;
    Rounds48();
    Words6();
    var v48 := Vars(0x4172328d, 0xa14c14b0, 0x72ab4b91, 0x26628815, 0xfecf0bc6, 0xd57b94a9, 0xb7755da1, 0xa80f11f0);
    var v49 := Moved(v48, 0x05757ceb, 0xbd714038);
    assert Rounds(H0, MESSAGE, 49) == v49 by { Turn(48, v48, 0x19a4c116, 0xfb3e89cb, v49); }
    var v50 := Moved(v49, 0xf11bfaa8, 0x6e5c390c);
    assert Rounds(H0, MESSAGE, 50) == v50 by { Turn(49, v49, 0x1e376c08, 0xcc7617db, v50); }
    var v51 := Moved(v50, 0x7a0508a1, 0x52f1ccf7);
    assert Rounds(H0, MESSAGE, 51) == v51 by { Turn(50, v50, 0x2748774c, 0xb9e66c34, v51); }
    var v52 := Moved(v51, 0x886e7a22, 0x49231c1e);
    assert Rounds(H0, MESSAGE, 52) == v52 by { Turn(51, v51, 0x34b0bcb5, 0xa9993667, v52); }
  }

  lemma Rounds56()
    ensures Rounds(H0, MESSAGE, 56) ==
            Vars(0x38cc9913, 0x3ec45cdb, 0xf5702fdb, 0x101fd28f, 0x54cb266b, 0xe50e1b4f, 0x9f4787c3, 0x529e7d00)
  {
    hide Rounds, Schedule;
    Rounds52();
    Words6();
    var v52 := Vars(0x886e7a22, 0x7a0508a1, 0xf11bfaa8, 0x05757ceb, 0x49231c1e, 0x52f1ccf7, 0x6e5c390c, 0xbd714038);
    var v53 := Moved(v52, 0x101fd28f, 0x529e7d00);
    assert Rounds(H0, MESSAGE, 53) == v53 by { Turn(52, v52, 0x391c0cb3, 0x84badedd, v53); }
    var v54 := Moved(v53, 0xf5702fdb, 0x9f4787c3);
    assert Rounds(H0, MESSAGE, 54) == v54 by { Turn(53, v53, 0x4ed8aa4a, 0xc21462bc, v54); }
    var v55 := Moved(v54, 0x3ec45cdb, 0xe50e1b4f);
    assert Rounds(H0, MESSAGE, 55) == v55 by { Turn(54, v54, 0x5b9cca4f, 0x1487472c, v55); }
    var v56 := Moved(v55, 0x38cc9913, 0x54cb266b);
    assert Rounds(H0, MESSAGE, 56) == v56 by { Turn(55, v55, 0x682e6ff3, 0xb20f7a99, v56); }
  }

  lemma Rounds60()
    ensures Rounds(H0, MESSAGE, 60) ==
            Vars(0xb6ae8fff, 0xffb70472, 0xc062d46f, 0xfcd1887b, 0xb21bad3d, 0x6d83bfc6, 0x7e44008e, 0x9b5e906c)
  {
    hide Rounds, Schedule;
    Rounds56();
    Words7();
    var v56 := Vars(0x38cc9913, 0x3ec45cdb, 0xf5702fdb, 0x101fd28f, 0x54cb266b, 0xe50e1b4f, 0x9f4787c3, 0x529e7d00);
    var v57 := Moved(v56, 0xfcd1887b, 0x9b5e906c);
    assert Rounds(H0, MESSAGE, 57) == v57 by { Turn(56, v56, 0x748f82ee, 0xef57b9cd, v57); }
    var v58 := Moved(v57, 0xc062d46f, 0x7e44008e);
    assert Rounds(H0, MESSAGE, 58) == v58 by { Turn(57, v57, 0x78a5636f, 0xebe6b238, v58); }
    var v59 := Moved(v58, 0xffb70472, 0x6d83bfc6);
    assert Rounds(H0, MESSAGE, 59) == v59 by { Turn(58, v58, 0x84c87814, 0x9fe3095e, v59); }
    var v60 := Moved(v59, 0xb6ae8fff, 0xb21bad3d);
    assert Rounds(H0, MESSAGE, 60) == v60 by { Turn(59, v59, 0x8cc70208, 0x78bc8d4b, v60); }
  }

  lemma Rounds64()
    ensures Rounds(H0, MESSAGE, 64) ==
            Vars(0x506e3058, 0xd39a2165, 0x04d24d6c, 0xb85e2ce9, 0x5ef50f24, 0xfb121210, 0x948d25b6, 0x961f4894)
  {
    hide Rounds, Schedule;
    Rounds60();
    Words7();
    var v60 := Vars(0xb6ae8fff, 0xffb70472, 0xc062d46f, 0xfcd1887b, 0xb21bad3d, 0x6d83bfc6, 0x7e44008e, 0x9b5e906c);
    var v61 := Moved(v60, 0xb85e2ce9, 0x961f4894);
    assert Rounds(H0, MESSAGE, 61) == v61 by { Turn(60, v60, 0x90befffa, 0xa43fcf15, v61); }
    var v62 := Moved(v61, 0x04d24d6c, 0x948d25b6);
    assert Rounds(H0, MESSAGE, 62) == v62 by { Turn(61, v61, 0xa4506ceb, 0x668b2ff8, v62); }
    var v63 := Moved(v62, 0xd39a2165, 0xfb121210);
    assert Rounds(H0, MESSAGE, 63) == v63 by { Turn(62, v62, 0xbef9a3f7, 0xeeaba2cc, v63); }
    var v64 := Moved(v63, 0x506e3058, 0x5ef50f24);
    assert Rounds(H0, MESSAGE, 64) == v64 by { Turn(63, v63, 0xc67178f2, 0x12b1edeb, v64); }
  }

  lemma Final()
    ensures Hash(MESSAGE, 1) ==
            Vars(0xba7816bf, 0x8f01cfea, 0x414140de, 0x5dae2223, 0xb00361a3, 0x96177a9c, 0xb410ff61, 0xf20015ad)
  {
    hide Rounds;
    Rounds64();
    assert Block(MESSAGE, 0) == MESSAGE;
    assert Hash(MESSAGE, 0) == H0;
  }

  lemma InBytes()
    ensures Bytes(
              Vars(0xba7816bf, 0x8f01cfea, 0x414140de, 0x5dae2223, 0xb00361a3, 0x96177a9c, 0xb410ff61, 0xf20015ad)) == [
      0xba, 0x78, 0x16, 0xbf, 0x8f, 0x01, 0xcf, 0xea, 0x41, 0x41, 0x40, 0xde, 0x5d, 0xae, 0x22, 0x23,
      0xb0, 0x03, 0x61, 0xa3, 0x96, 0x17, 0x7a, 0x9c, 0xb4, 0x10, 0xff, 0x61, 0xf2, 0x00, 0x15, 0xad
    ]
  {}

  /** The digest of `abc`.  */
  lemma Example()
    ensures Digest([0x61, 0x62, 0x63]) == [
      0xba, 0x78, 0x16, 0xbf, 0x8f, 0x01, 0xcf, 0xea, 0x41, 0x41, 0x40, 0xde, 0x5d, 0xae, 0x22, 0x23,
      0xb0, 0x03, 0x61, 0xa3, 0x96, 0x17, 0x7a, 0x9c, 0xb4, 0x10, 0xff, 0x61, 0xf2, 0x00, 0x15, 0xad
    ]
  {
    hide Padded, Hash, Bytes;
    OneBlock();
    Final();
    InBytes();
  }
}
