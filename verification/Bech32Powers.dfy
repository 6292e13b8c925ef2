/** Powers of e as linear maps, with the products that tie them together, and the roots of the generator. */
module Bech32Powers {
  import opened Bech32Field

  const ONE := Linear(1, 2, 4, 8, 16, 32, 64, 128, 256, 512)

  /** Multiplication by e, where e^2 = 9 e + 23 over GF(32) = GF(2)[a] / (a^5 + a^3 + 1). */
  const E1 := Linear(32, 64, 128, 256, 512, 311, 583, 430, 860, 945)
  const E2 := Linear(311, 583, 430, 860, 945, 139, 278, 517, 298, 596)
  const E4 := Linear(206, 412, 785, 811, 886, 553, 370, 717, 186, 349)
  const E8 := Linear(537, 315, 607, 439, 839, 145, 267, 534, 293, 586)
  const E16 := Linear(675, 102, 204, 408, 793, 840, 944, 617, 498, 973)
  const E24 := Linear(1007, 766, 245, 451, 902, 979, 687, 126, 213, 387)
  const E26 := Linear(356, 712, 176, 329, 658, 172, 344, 665, 59, 95)
  const E32 := Linear(41, 82, 141, 282, 541, 23, 7, 14, 28, 17)
  const E33 := Linear(23, 7, 14, 28, 17, 736, 224, 448, 896, 544)
  const E65 := Linear(747, 246, 453, 906, 564, 15, 30, 21, 3, 6)
  const E81 := Linear(513, 290, 580, 424, 848, 913, 555, 374, 709, 170)
  const E89 := Linear(83, 143, 286, 533, 291, 39, 78, 156, 273, 523)
  const E93 := Linear(854, 933, 618, 500, 961, 106, 212, 385, 770, 804)
  const E170 := Linear(600, 441, 859, 959, 631, 758, 229, 458, 916, 545)
  const E340 := Linear(780, 824, 889, 1019, 767, 365, 730, 189, 339, 655)
  const E341 := Linear(365, 730, 189, 339, 655, 396, 792, 825, 891, 1023)
  const E682 := Linear(364, 728, 185, 347, 671, 428, 856, 953, 635, 511)

  /** Multiplication by e^997, e^998 and e^999. */
  const P997 := Linear(445, 851, 943, 638, 501, 101, 202, 404, 769, 802)
  const P998 := Linear(101, 202, 404, 769, 802, 976, 681, 114, 205, 410)
  const P999 := Linear(976, 681, 114, 205, 410, 260, 520, 304, 585, 434)

  // ---- Products, bit by bit ----

  lemma Bits2()
    ensures Apply(E1, 32) == 311 && Apply(E1, 64) == 583 && Apply(E1, 128) == 430 && Apply(E1, 256) == 860
    ensures Apply(E1, 512) == 945 && Apply(E1, 311) == 139 && Apply(E1, 583) == 278 && Apply(E1, 430) == 517
    ensures Apply(E1, 860) == 298 && Apply(E1, 945) == 596
  {
  }

  lemma Bits4()
    ensures Apply(E2, 311) == 206 && Apply(E2, 583) == 412 && Apply(E2, 430) == 785 && Apply(E2, 860) == 811
    ensures Apply(E2, 945) == 886 && Apply(E2, 139) == 553 && Apply(E2, 278) == 370 && Apply(E2, 517) == 717
    ensures Apply(E2, 298) == 186 && Apply(E2, 596) == 349
  {
  }

  lemma Bits8()
    ensures Apply(E4, 206) == 537 && Apply(E4, 412) == 315 && Apply(E4, 785) == 607 && Apply(E4, 811) == 439
    ensures Apply(E4, 886) == 839 && Apply(E4, 553) == 145 && Apply(E4, 370) == 267 && Apply(E4, 717) == 534
    ensures Apply(E4, 186) == 293 && Apply(E4, 349) == 586
  {
  }

  lemma Bits16()
    ensures Apply(E8, 537) == 675 && Apply(E8, 315) == 102 && Apply(E8, 607) == 204 && Apply(E8, 439) == 408
    ensures Apply(E8, 839) == 793 && Apply(E8, 145) == 840 && Apply(E8, 267) == 944 && Apply(E8, 534) == 617
    ensures Apply(E8, 293) == 498 && Apply(E8, 586) == 973
  {
  }

  lemma Bits24()
    ensures Apply(E8, 675) == 1007 && Apply(E8, 102) == 766 && Apply(E8, 204) == 245 && Apply(E8, 408) == 451
    ensures Apply(E8, 793) == 902 && Apply(E8, 840) == 979 && Apply(E8, 944) == 687 && Apply(E8, 617) == 126
    ensures Apply(E8, 498) == 213 && Apply(E8, 973) == 387
  {
  }

  lemma Bits26()
    ensures Apply(E2, 1007) == 356 && Apply(E2, 766) == 712 && Apply(E2, 245) == 176 && Apply(E2, 451) == 329
    ensures Apply(E2, 902) == 658 && Apply(E2, 979) == 172 && Apply(E2, 687) == 344 && Apply(E2, 126) == 665
    ensures Apply(E2, 213) == 59 && Apply(E2, 387) == 95
  {
  }

  lemma Bits32()
    ensures Apply(E16, 675) == 41 && Apply(E16, 102) == 82 && Apply(E16, 204) == 141 && Apply(E16, 408) == 282
    ensures Apply(E16, 793) == 541 && Apply(E16, 840) == 23 && Apply(E16, 944) == 7 && Apply(E16, 617) == 14
    ensures Apply(E16, 498) == 28 && Apply(E16, 973) == 17
  {
  }

  lemma Bits33()
    ensures Apply(E1, 41) == 23 && Apply(E1, 82) == 7 && Apply(E1, 141) == 14 && Apply(E1, 282) == 28
    ensures Apply(E1, 541) == 17 && Apply(E1, 23) == 736 && Apply(E1, 7) == 224 && Apply(E1, 14) == 448
    ensures Apply(E1, 28) == 896 && Apply(E1, 17) == 544
  {
  }

  lemma Bits65()
    ensures Apply(E32, 23) == 747 && Apply(E32, 7) == 246 && Apply(E32, 14) == 453 && Apply(E32, 28) == 906
    ensures Apply(E32, 17) == 564 && Apply(E32, 736) == 15 && Apply(E32, 224) == 30 && Apply(E32, 448) == 21
    ensures Apply(E32, 896) == 3 && Apply(E32, 544) == 6
  {
  }

  lemma Bits81()
    ensures Apply(E16, 747) == 513 && Apply(E16, 246) == 290 && Apply(E16, 453) == 580 && Apply(E16, 906) == 424
    ensures Apply(E16, 564) == 848 && Apply(E16, 15) == 913 && Apply(E16, 30) == 555 && Apply(E16, 21) == 374
    ensures Apply(E16, 3) == 709 && Apply(E16, 6) == 170
  {
  }

  lemma Bits89()
    ensures Apply(E8, 513) == 83 && Apply(E8, 290) == 143 && Apply(E8, 580) == 286 && Apply(E8, 424) == 533
    ensures Apply(E8, 848) == 291 && Apply(E8, 913) == 39 && Apply(E8, 555) == 78 && Apply(E8, 374) == 156
    ensures Apply(E8, 709) == 273 && Apply(E8, 170) == 523
  {
  }

  lemma Bits93()
    ensures Apply(E4, 83) == 854 && Apply(E4, 143) == 933 && Apply(E4, 286) == 618 && Apply(E4, 533) == 500
    ensures Apply(E4, 291) == 961 && Apply(E4, 39) == 106 && Apply(E4, 78) == 212 && Apply(E4, 156) == 385
    ensures Apply(E4, 273) == 770 && Apply(E4, 523) == 804
  {
  }

  lemma Bits170()
    ensures Apply(E81, 83) == 600 && Apply(E81, 143) == 441 && Apply(E81, 286) == 859 && Apply(E81, 533) == 959
    ensures Apply(E81, 291) == 631 && Apply(E81, 39) == 758 && Apply(E81, 78) == 229 && Apply(E81, 156) == 458
    ensures Apply(E81, 273) == 916 && Apply(E81, 523) == 545
  {
  }

  lemma Bits340()
    ensures Apply(E170, 600) == 780 && Apply(E170, 441) == 824 && Apply(E170, 859) == 889 && Apply(E170, 959) == 1019
    ensures Apply(E170, 631) == 767 && Apply(E170, 758) == 365 && Apply(E170, 229) == 730 && Apply(E170, 458) == 189
    ensures Apply(E170, 916) == 339 && Apply(E170, 545) == 655
  {
  }

  lemma Bits341()
    ensures Apply(E1, 780) == 365 && Apply(E1, 824) == 730 && Apply(E1, 889) == 189 && Apply(E1, 1019) == 339
    ensures Apply(E1, 767) == 655 && Apply(E1, 365) == 396 && Apply(E1, 730) == 792 && Apply(E1, 189) == 825
    ensures Apply(E1, 339) == 891 && Apply(E1, 655) == 1023
  {
  }

  lemma Bits682()
    ensures Apply(E341, 365) == 364 && Apply(E341, 730) == 728 && Apply(E341, 189) == 185 && Apply(E341, 339) == 347
    ensures Apply(E341, 655) == 671 && Apply(E341, 396) == 428 && Apply(E341, 792) == 856 && Apply(E341, 825) == 953
    ensures Apply(E341, 891) == 635 && Apply(E341, 1023) == 511
  {
  }

  lemma Bits1023()
    ensures Apply(E341, 364) == 1 && Apply(E341, 728) == 2 && Apply(E341, 185) == 4 && Apply(E341, 347) == 8
    ensures Apply(E341, 671) == 16 && Apply(E341, 428) == 32 && Apply(E341, 856) == 64 && Apply(E341, 953) == 128
    ensures Apply(E341, 635) == 256 && Apply(E341, 511) == 512
  {
  }

  lemma Bits998()
    ensures Apply(E1, 445) == 101 && Apply(E1, 851) == 202 && Apply(E1, 943) == 404 && Apply(E1, 638) == 769
    ensures Apply(E1, 501) == 802 && Apply(E1, 101) == 976 && Apply(E1, 202) == 681 && Apply(E1, 404) == 114
    ensures Apply(E1, 769) == 205 && Apply(E1, 802) == 410
  {
  }

  lemma Bits998Back()
    ensures Apply(P997, 32) == 101 && Apply(P997, 64) == 202 && Apply(P997, 128) == 404 && Apply(P997, 256) == 769
    ensures Apply(P997, 512) == 802 && Apply(P997, 311) == 976 && Apply(P997, 583) == 681 && Apply(P997, 430) == 114
    ensures Apply(P997, 860) == 205 && Apply(P997, 945) == 410
  {
  }

  lemma Bits997()
    ensures Apply(P997, 356) == 1 && Apply(P997, 712) == 2 && Apply(P997, 176) == 4 && Apply(P997, 329) == 8
    ensures Apply(P997, 658) == 16 && Apply(P997, 172) == 32 && Apply(P997, 344) == 64 && Apply(P997, 665) == 128
    ensures Apply(P997, 59) == 256 && Apply(P997, 95) == 512
  {
  }

  lemma Bits999()
    ensures Apply(E1, 101) == 976 && Apply(E1, 202) == 681 && Apply(E1, 404) == 114 && Apply(E1, 769) == 205
    ensures Apply(E1, 802) == 410 && Apply(E1, 976) == 260 && Apply(E1, 681) == 520 && Apply(E1, 114) == 304
    ensures Apply(E1, 205) == 585 && Apply(E1, 410) == 434
  {
  }

  lemma Products()
    ensures Compose(E1, E1) == E2 && Compose(E2, E2) == E4 && Compose(E4, E4) == E8 && Compose(E8, E8) == E16
    ensures Compose(E8, E16) == E24 && Compose(E2, E24) == E26 && Compose(E16, E16) == E32 && Compose(E1, E32) == E33
    ensures Compose(E32, E33) == E65 && Compose(E16, E65) == E81 && Compose(E8, E81) == E89 && Compose(E4, E89) == E93
    ensures Compose(E81, E89) == E170 && Compose(E170, E170) == E340 && Compose(E1, E340) == E341
    ensures Compose(E341, E341) == E682 && Compose(E341, E682) == ONE && Compose(E1, P997) == P998
    ensures Compose(P997, E1) == P998 && Compose(P997, E26) == ONE && Compose(E1, P998) == P999
  {
    hide Apply;
    Bits2();
    Bits4();
    Bits8();
    Bits16();
    Bits24();
    Bits26();
    Bits32();
    Bits33();
    Bits65();
    Bits81();
    Bits89();
    Bits93();
    Bits170();
    Bits340();
    Bits341();
    Bits682();
    Bits1023();
    Bits998();
    Bits998Back();
    Bits997();
    Bits999();
  }

  // ---- No power below e^1023 leaves anything but zero in place ----

  lemma Moves33(v: bv10)
    requires Apply(E33, v) == v
    ensures v == 0
  {
  }

  lemma Moves93(v: bv10)
    requires Apply(E93, v) == v
    ensures v == 0
  {
  }

  lemma Moves341(v: bv10)
    requires Apply(E341, v) == v
    ensures v == 0
  {
  }

  lemma EKeepsNonzero(v: bv10)
    ensures Apply(ONE, v) == v
    ensures Apply(E1, v) == 0 ==> v == 0
  {
  }

  lemma RootKeepsNonzero(v: bv10)
    ensures Apply(P997, v) == 0 ==> v == 0
  {
  }

  // ---- The generator vanishes at the three roots ----

  lemma Root997Bit0()
    ensures Apply(P997, 29) == 409 && Apply(P997, 399) == 426 && Apply(P997, 446) == 391 && Apply(P997, 402) == 51
    ensures Apply(P997, 46) == 743 && Apply(P997, 1) == 445 && Apply(P997, 445) == 873 && Apply(P997, 873) == 847
    ensures Apply(P997, 847) == 982 && Apply(P997, 982) == 116 && Apply(P997, 116) == 757
  {
  }

  lemma Root997Bit1()
    ensures Apply(P997, 19) == 795 && Apply(P997, 798) == 852 && Apply(P997, 853) == 782 && Apply(P997, 781) == 79
    ensures Apply(P997, 92) == 238 && Apply(P997, 2) == 851 && Apply(P997, 851) == 1010 && Apply(P997, 1010) == 958
    ensures Apply(P997, 958) == 677 && Apply(P997, 677) == 193 && Apply(P997, 193) == 227
  {
  }

  lemma Root997Bit2()
    ensures Apply(P997, 15) == 831 && Apply(P997, 821) == 929 && Apply(P997, 931) == 828 && Apply(P997, 826) == 158
    ensures Apply(P997, 145) == 476 && Apply(P997, 4) == 943 && Apply(P997, 943) == 749 && Apply(P997, 749) == 629
    ensures Apply(P997, 629) == 106 && Apply(P997, 106) == 386 && Apply(P997, 386) == 454
  {
  }

  lemma Root997Bit3()
    ensures Apply(P997, 30) == 887 && Apply(P997, 867) == 610 && Apply(P997, 614) == 881 && Apply(P997, 893) == 277
    ensures Apply(P997, 267) == 913 && Apply(P997, 8) == 638 && Apply(P997, 638) == 250 && Apply(P997, 250) == 483
    ensures Apply(P997, 483) == 212 && Apply(P997, 212) == 772 && Apply(P997, 772) == 908
  {
  }

  lemma Root997Bit4()
    ensures Apply(P997, 21) == 999 && Apply(P997, 998) == 484 && Apply(P997, 492) == 1003 && Apply(P997, 1011) == 515
    ensures Apply(P997, 534) == 555 && Apply(P997, 16) == 501 && Apply(P997, 501) == 477 && Apply(P997, 477) == 966
    ensures Apply(P997, 966) == 385 && Apply(P997, 385) == 808 && Apply(P997, 808) == 568
  {
  }

  lemma Root998Bit0()
    ensures Apply(P998, 29) == 466 && Apply(P998, 452) == 898 && Apply(P998, 918) == 857 && Apply(P998, 844) == 363
    ensures Apply(P998, 374) == 968 && Apply(P998, 1) == 101 && Apply(P998, 101) == 136 && Apply(P998, 136) == 883
    ensures Apply(P998, 883) == 931 && Apply(P998, 931) == 602 && Apply(P998, 602) == 986
  {
  }

  lemma Root998Bit1()
    ensures Apply(P998, 19) == 909 && Apply(P998, 904) == 548 && Apply(P998, 549) == 955 && Apply(P998, 952) == 726
    ensures Apply(P998, 709) == 688 && Apply(P998, 2) == 202 && Apply(P998, 202) == 272 && Apply(P998, 272) == 1007
    ensures Apply(P998, 1007) == 614 && Apply(P998, 614) == 445 && Apply(P998, 445) == 701
  {
  }

  lemma Root998Bit2()
    ensures Apply(P998, 15) == 570 && Apply(P998, 560) == 360 && Apply(P998, 362) == 639 && Apply(P998, 633) == 165
    ensures Apply(P998, 170) == 105 && Apply(P998, 4) == 404 && Apply(P998, 404) == 521 && Apply(P998, 521) == 766
    ensures Apply(P998, 766) == 492 && Apply(P998, 492) == 851 && Apply(P998, 851) == 115
  {
  }

  lemma Root998Bit3()
    ensures Apply(P998, 30) == 381 && Apply(P998, 361) == 720 && Apply(P998, 724) == 503 && Apply(P998, 507) == 330
    ensures Apply(P998, 340) == 210 && Apply(P998, 8) == 769 && Apply(P998, 769) == 306 && Apply(P998, 306) == 245
    ensures Apply(P998, 245) == 984 && Apply(P998, 984) == 943 && Apply(P998, 943) == 207
  {
  }

  lemma Root998Bit4()
    ensures Apply(P998, 21) == 723 && Apply(P998, 722) == 169 && Apply(P998, 161) == 967 && Apply(P998, 991) == 660
    ensures Apply(P998, 641) == 397 && Apply(P998, 16) == 802 && Apply(P998, 802) == 589 && Apply(P998, 589) == 451
    ensures Apply(P998, 451) == 697 && Apply(P998, 697) == 638 && Apply(P998, 638) == 414
  {
  }

  lemma Root999Bit0()
    ensures Apply(P999, 29) == 757 && Apply(P999, 739) == 759 && Apply(P999, 738) == 295 && Apply(P999, 314) == 179
    ensures Apply(P999, 1) == 976 && Apply(P999, 976) == 345 && Apply(P999, 345) == 710 && Apply(P999, 710) == 81
    ensures Apply(P999, 81) == 66 && Apply(P999, 66) == 161
  {
  }

  lemma Root999Bit1()
    ensures Apply(P999, 19) == 227 && Apply(P999, 230) == 231 && Apply(P999, 228) == 590 && Apply(P999, 605) == 335
    ensures Apply(P999, 2) == 681 && Apply(P999, 681) == 667 && Apply(P999, 667) == 172 && Apply(P999, 172) == 139
    ensures Apply(P999, 139) == 132 && Apply(P999, 132) == 322
  {
  }

  lemma Root999Bit2()
    ensures Apply(P999, 15) == 454 && Apply(P999, 460) == 462 && Apply(P999, 456) == 444 && Apply(P999, 435) == 670
    ensures Apply(P999, 4) == 114 && Apply(P999, 114) == 63 && Apply(P999, 63) == 344 && Apply(P999, 344) == 278
    ensures Apply(P999, 278) == 264 && Apply(P999, 264) == 644
  {
  }

  lemma Root999Bit3()
    ensures Apply(P999, 30) == 908 && Apply(P999, 920) == 924 && Apply(P999, 912) == 849 && Apply(P999, 847) == 53
    ensures Apply(P999, 8) == 205 && Apply(P999, 205) == 87 && Apply(P999, 87) == 665 && Apply(P999, 665) == 517
    ensures Apply(P999, 517) == 528 && Apply(P999, 528) == 40
  {
  }

  lemma Root999Bit4()
    ensures Apply(P999, 21) == 568 && Apply(P999, 569) == 561 && Apply(P999, 553) == 939 && Apply(P999, 958) == 67
    ensures Apply(P999, 16) == 410 && Apply(P999, 410) == 135 && Apply(P999, 135) == 59 && Apply(P999, 59) == 298
    ensures Apply(P999, 298) == 297 && Apply(P999, 297) == 80
  {
  }
}
