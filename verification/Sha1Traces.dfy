/** The working variables and schedule words of five blocks: "abc", and the two blocks of each hash in case 2 of
    RFC 2202.  After every ten rounds the stage is written down; in between, for each round, the new first variable
    and the word that enters the window. */
module Sha1Traces {
  import opened Octets
  import opened Sha1
  import opened Sha1Rounds

  // ---------------------------------------------------------------------------------- abc

  const ABC_0 := Stage(State(0x6745_2301, 0xefcd_ab89, 0x98ba_dcfe, 0x1032_5476, 0xc3d2_e1f0),
    Window(0x6162_6380, 0x0000_0000, 0x0000_0000, 0x0000_0000, 0x0000_0000, 0x0000_0000, 0x0000_0000, 0x0000_0000,
           0x0000_0000, 0x0000_0000, 0x0000_0000, 0x0000_0000, 0x0000_0000, 0x0000_0000, 0x0000_0000, 0x0000_0018))
  const ABC_10 := Stage(State(0x8351_f929, 0x4b6a_e328, 0x27a3_01f5, 0x664f_8c30, 0x0ff1_f290),
    Window(0x0000_0000, 0x0000_0000, 0x0000_0000, 0x0000_0000, 0x0000_0000, 0x0000_0018, 0xc2c4_c700, 0x0000_0000,
           0x0000_0030, 0x8589_8e01, 0x0000_0000, 0x0000_0060, 0x0b13_1c03, 0x0000_0030, 0x8589_8ec1, 0x1626_3806))
  const ABC_20 := Stage(State(0xfd9e_1d7d, 0xdc64_901d, 0x20aa_99ca, 0xd3a4_9608, 0xc82f_758b),
    Window(0x0000_0000, 0x0000_0060, 0x0b13_1c03, 0x0000_0030, 0x8589_8ec1, 0x1626_3806, 0x0000_0000, 0x0000_0180,
           0x2c4c_700c, 0x0000_00f0, 0x93af_b507, 0x5898_e048, 0x8e9a_9202, 0x0000_0600, 0xb131_c0f0, 0x1626_3bc6))
  const ABC_30 := Stage(State(0xc5fb_af5d, 0x8370_b52e, 0xd2aa_1365, 0x6f8d_7ef5, 0x1210_4ee9),
    Window(0x93af_b507, 0x5898_e048, 0x8e9a_9202, 0x0000_0600, 0xb131_c0f0, 0x1626_3bc6, 0x4ebe_d41e, 0x6263_80a1,
           0x1626_3806, 0x0000_18c0, 0xd2e1_38c4, 0x0000_0f00, 0x3afb_5079, 0x898e_04e5, 0xe2ba_3c2b, 0x0000_60c0))
  const ABC_40 := Stage(State(0x32de_1cba, 0x4c98_6405, 0xf718_e5cf, 0x03d4_47f6, 0xf72e_ec32),
    Window(0xd2e1_38c4, 0x0000_0f00, 0x3afb_5079, 0x898e_04e5, 0xe2ba_3c2b, 0x0000_60c0, 0x053a_37cd, 0x7445_8547,
           0xda94_15ed, 0x2638_0a16, 0x6263_83a1, 0x4ebf_54de, 0x3835_b44b, 0x0000_f600, 0x1e84_c7a3, 0x98e0_4d98))
  const ABC_50 := Stage(State(0x1207_31c5, 0xbaf3_9337, 0xafab_40b2, 0x2806_e11b, 0x8714_787c),
    Window(0x6263_83a1, 0x4ebf_54de, 0x3835_b44b, 0x0000_f600, 0x1e84_c7a3, 0x98e0_4d98, 0x651d_16a0, 0x6265_8ca1,
           0x4585_44d6, 0x4458_4cb7, 0x7ba0_6619, 0x6380_aea2, 0x0ae5_5269, 0x627b_49a1, 0x7cd4_5c9d, 0x000f_0000))
  const ABC_60 := Stage(State(0x3f52_de5a, 0x09d7_85fd, 0x3498_bfd4, 0xf211_824f, 0xd799_15ab),
    Window(0x7ba0_6619, 0x6380_aea2, 0x0ae5_5269, 0x627b_49a1, 0x7cd4_5c9d, 0x000f_0000, 0xfb50_753a, 0xec67_65e8,
           0xba3c_2be2, 0x0060_c000, 0x3a37_cd05, 0x4585_46f4, 0xb859_9dd6, 0x380a_1a26, 0x01e0_2203, 0xe7cc_3456))
  const ABC_70 := Stage(State(0x3f25_88c2, 0x4970_93c0, 0xde37_534a, 0x030f_7cad, 0x4405_957e),
    Window(0x3a37_cd05, 0x4585_46f4, 0xb859_9dd6, 0x380a_1a26, 0x01e0_2203, 0xe7cc_3456, 0xe6e6_0b69, 0x00f6_0a00,
           0x5795_ef4f, 0x822e_0879, 0x7e57_7ce2, 0x07ef_2103, 0x8544_e945, 0xeb39_dab8, 0xc205_991a, 0x80ae_cb63))
  const ABC_80 := Stage(State(0x4254_1b35, 0x5738_d5e1, 0x2183_4873, 0x681e_6df6, 0xd8fd_f6ad),
    Window(0x7e57_7ce2, 0x07ef_2103, 0x8544_e945, 0xeb39_dab8, 0xc205_991a, 0x80ae_cb63, 0x7d84_ca48, 0x7b49_9b62,
           0x8e80_10a8, 0x4b5b_8a77, 0x3216_b69a, 0x0507_e88d, 0x705b_ee96, 0x60c0_ff00, 0xa283_62d0, 0x1da6_b91d))

  const ABC_TO_10 :=
    Next(0x0116_fc33, 0xc2c4_c700, Next(0x8990_536d, 0x0000_0000, Next(0xa139_0f08, 0x0000_0030,
    Next(0xcdd8_e11b, 0x8589_8e01, Next(0xcfd4_99de, 0x0000_0000, Next(0x3fc7_ca40, 0x0000_0060,
    Next(0x993e_30c1, 0x0b13_1c03, Next(0x9e8c_07d4, 0x0000_0030, Next(0x4b6a_e328, 0x8589_8ec1,
    Next(0x8351_f929, 0x1626_3806, End))))))))))

  lemma Abc10()
    ensures Leads(ABC_0, 0, ABC_TO_10, ABC_10, 10)
  {
  }

  const ABC_TO_20 :=
    Next(0xfbda_9e89, 0x0000_0000, Next(0x6318_8fe4, 0x0000_0180, Next(0x4607_b664, 0x2c4c_700c,
    Next(0x9128_f695, 0x0000_00f0, Next(0x196b_ee77, 0x93af_b507, Next(0x20bd_d62f, 0x5898_e048,
    Next(0x4e92_5823, 0x8e9a_9202, Next(0x82aa_6728, 0x0000_0600, Next(0xdc64_901d, 0xb131_c0f0,
    Next(0xfd9e_1d7d, 0x1626_3bc6, End))))))))))

  lemma Abc20()
    ensures Leads(ABC_10, 10, ABC_TO_20, ABC_20, 20)
  {
  }

  const ABC_TO_30 :=
    Next(0x1a37_b0ca, 0x4ebe_d41e, Next(0x33a2_3bfc, 0x6263_80a1, Next(0x2128_3486, 0x1626_3806,
    Next(0xd541_f12d, 0x0000_18c0, Next(0xc756_7dc6, 0xd2e1_38c4, Next(0x4841_3ba4, 0x0000_0f00,
    Next(0xbe35_fbd5, 0x3afb_5079, Next(0x4aa8_4d97, 0x898e_04e5, Next(0x8370_b52e, 0xe2ba_3c2b,
    Next(0xc5fb_af5d, 0x0000_60c0, End))))))))))

  lemma Abc30()
    ensures Leads(ABC_20, 20, ABC_TO_30, ABC_30, 30)
  {
  }

  const ABC_TO_40 :=
    Next(0x1267_b407, 0x053a_37cd, Next(0x3b84_5d33, 0x7445_8547, Next(0x046f_aa0a, 0xda94_15ed,
    Next(0x2c0e_bc11, 0x2638_0a16, Next(0x2179_6ad4, 0x6263_83a1, Next(0xdcbb_b0cb, 0x4ebf_54de,
    Next(0x0f51_1fd8, 0x3835_b44b, Next(0xdc63_973f, 0x0000_f600, Next(0x4c98_6405, 0x1e84_c7a3,
    Next(0x32de_1cba, 0x98e0_4d98, End))))))))))

  lemma Abc40()
    ensures Leads(ABC_30, 30, ABC_TO_40, ABC_40, 40)
  {
  }

  const ABC_TO_50 :=
    Next(0xfc87_dedf, 0x651d_16a0, Next(0x970a_0d5c, 0x6265_8ca1, Next(0x7f19_3dc5, 0x4585_44d6,
    Next(0xee1b_1aaf, 0x4458_4cb7, Next(0x40f2_8e09, 0x7ba0_6619, Next(0x1c51_e1f2, 0x6380_aea2,
    Next(0xa01b_846c, 0x0ae5_5269, Next(0xbead_02ca, 0x627b_49a1, Next(0xbaf3_9337, 0x7cd4_5c9d,
    Next(0x1207_31c5, 0x000f_0000, End))))))))))

  lemma Abc50()
    ensures Leads(ABC_40, 40, ABC_TO_50, ABC_50, 50)
  {
  }

  const ABC_TO_60 :=
    Next(0x641d_b2ce, 0xfb50_753a, Next(0x3847_ad66, 0xec67_65e8, Next(0xe490_436d, 0xba3c_2be2,
    Next(0x27e9_f1d8, 0x0060_c000, Next(0x7b71_f76d, 0x3a37_cd05, Next(0x5e64_56af, 0x4585_46f4,
    Next(0xc846_093f, 0xb859_9dd6, Next(0xd262_ff50, 0x380a_1a26, Next(0x09d7_85fd, 0x01e0_2203,
    Next(0x3f52_de5a, 0xe7cc_3456, End))))))))))

  lemma Abc60()
    ensures Leads(ABC_50, 50, ABC_TO_60, ABC_60, 60)
  {
  }

  const ABC_TO_70 :=
    Next(0xd756_c147, 0xe6e6_0b69, Next(0x548c_9cb2, 0x00f6_0a00, Next(0xb66c_020b, 0x5795_ef4f,
    Next(0x6b61_c9e1, 0x822e_0879, Next(0x19df_a7ac, 0x7e57_7ce2, Next(0x1016_55f9, 0x07ef_2103,
    Next(0x0c3d_f2b4, 0x8544_e945, Next(0x78dd_4d2b, 0xeb39_dab8, Next(0x4970_93c0, 0xc205_991a,
    Next(0x3f25_88c2, 0x80ae_cb63, End))))))))))

  lemma Abc70()
    ensures Leads(ABC_60, 60, ABC_TO_70, ABC_70, 70)
  {
  }

  const ABC_TO_80 :=
    Next(0xc199_f8c7, 0x7d84_ca48, Next(0x3985_9de7, 0x7b49_9b62, Next(0xedb4_2de4, 0x8e80_10a8,
    Next(0x1179_3f6f, 0x4b5b_8a77, Next(0x5ee7_6897, 0x3216_b69a, Next(0x63f7_dab7, 0x0507_e88d,
    Next(0xa079_b7d9, 0x705b_ee96, Next(0x860d_21cc, 0x60c0_ff00, Next(0x5738_d5e1, 0xa283_62d0,
    Next(0x4254_1b35, 0x1da6_b91d, End))))))))))

  lemma Abc80()
    ensures Leads(ABC_70, 70, ABC_TO_80, ABC_80, 80)
  {
  }

  lemma AbcCompresses(block: seq<Octet>)
    requires Holds(block, ABC_0.x)
    ensures Compress(ABC_0.v, block)
         == State(0xa999_3e36, 0x4706_816a, 0xba3e_2571, 0x7850_c26c, 0x9cd0_d89d)
  {
    hide Holds, Reaches, Leads, Compress;
    FirstStage(block, ABC_0.v, ABC_0.x);
    Abc10();
    FollowTrail(block, ABC_0.v, 0, ABC_0, ABC_TO_10, ABC_10, 10);
    Abc20();
    FollowTrail(block, ABC_0.v, 10, ABC_10, ABC_TO_20, ABC_20, 20);
    Abc30();
    FollowTrail(block, ABC_0.v, 20, ABC_20, ABC_TO_30, ABC_30, 30);
    Abc40();
    FollowTrail(block, ABC_0.v, 30, ABC_30, ABC_TO_40, ABC_40, 40);
    Abc50();
    FollowTrail(block, ABC_0.v, 40, ABC_40, ABC_TO_50, ABC_50, 50);
    Abc60();
    FollowTrail(block, ABC_0.v, 50, ABC_50, ABC_TO_60, ABC_60, 60);
    Abc70();
    FollowTrail(block, ABC_0.v, 60, ABC_60, ABC_TO_70, ABC_70, 70);
    Abc80();
    FollowTrail(block, ABC_0.v, 70, ABC_70, ABC_TO_80, ABC_80, 80);
    LastStage(block, ABC_0.v, ABC_80);
    assert Add(ABC_0.v, ABC_80.v) == State(0xa999_3e36, 0x4706_816a, 0xba3e_2571, 0x7850_c26c, 0x9cd0_d89d);
  }

  // ------------------------------------------------------------------ the inner key block

  const INNER_0 := Stage(State(0x6745_2301, 0xefcd_ab89, 0x98ba_dcfe, 0x1032_5476, 0xc3d2_e1f0),
    Window(0x7c53_5053, 0x3636_3636, 0x3636_3636, 0x3636_3636, 0x3636_3636, 0x3636_3636, 0x3636_3636, 0x3636_3636,
           0x3636_3636, 0x3636_3636, 0x3636_3636, 0x3636_3636, 0x3636_3636, 0x3636_3636, 0x3636_3636, 0x3636_3636))
  const INNER_10 := Stage(State(0xcaed_6769, 0x9be0_be0a, 0x8ea9_08ee, 0x6a5b_41f3, 0x407b_8295),
    Window(0x3636_3636, 0x3636_3636, 0x3636_3636, 0x3636_3636, 0x3636_3636, 0x3636_3636, 0x94ca_ccca, 0x0000_0000,
           0x0000_0000, 0x45f9_f5f9, 0x6c6c_6c6c, 0x6c6c_6c6c, 0xe79f_879e, 0xb4b4_b4b4, 0xf14d_414d, 0xcf3f_0f3d))
  const INNER_20 := Stage(State(0x96ff_8ded, 0x097c_79c0, 0x0a80_20db, 0x75ab_de8d, 0x9b0c_05a4),
    Window(0x6c6c_6c6c, 0x6c6c_6c6c, 0xe79f_879e, 0xb4b4_b4b4, 0xf14d_414d, 0xcf3f_0f3d, 0x6969_6969, 0x6969_6969,
           0x46a6_c6a3, 0x0a0a_0a0a, 0x5814_2816, 0x8848_8843, 0xdf1b_0f1a, 0xa5a5_a5a5, 0x1a9b_1a8d, 0x3fcf_ffcd))
  const INNER_30 := Stage(State(0xc573_5584, 0x8f8a_6f74, 0xed70_ccac, 0xf790_6cb7, 0xa5c9_465e),
    Window(0x5814_2816, 0x8848_8843, 0xdf1b_0f1a, 0xa5a5_a5a5, 0x1a9b_1a8d, 0x3fcf_ffcd, 0xd1e1_11e8, 0x9093_90bf,
           0xe212_2210, 0x4444_4444, 0xaf59_6f03, 0xc3c3_c3c3, 0xe221_e206, 0xe7eb_e75b, 0x1920_793c, 0xe1e1_e1e1))
  const INNER_40 := Stage(State(0x36c3_694d, 0x0f5c_8001, 0xe34f_33c4, 0x35d0_c1b0, 0xd39e_f5a7),
    Window(0xaf59_6f03, 0xc3c3_c3c3, 0xe221_e206, 0xe7eb_e75b, 0x1920_793c, 0xe1e1_e1e1, 0x05ed_c48f, 0xe112_213c,
           0x1671_36eb, 0xb888_ba48, 0x9093_90bf, 0xbd8d_7d84, 0x24b7_e119, 0x4b4b_4b4b, 0xea57_e831, 0x8444_8f44))
  const INNER_50 := Stage(State(0xa188_afdf, 0x69c2_7926, 0xb9b7_5c1f, 0x74ed_2e95, 0x8619_9b16),
    Window(0x9093_90bf, 0xbd8d_7d84, 0x24b7_e119, 0x4b4b_4b4b, 0xea57_e831, 0x8444_8f44, 0x2085_e14a, 0xedee_edc2,
           0xdfad_0983, 0x3605_34e9, 0xab29_62d1, 0x282b_042b, 0x9f9c_5d79, 0xedee_edc2, 0x1c98_866b, 0xeeee_eeee))
  const INNER_60 := Stage(State(0x2b41_3eda, 0xe510_8b54, 0x9c41_0993, 0x7d7e_1887, 0x10be_1fec),
    Window(0xab29_62d1, 0x282b_042b, 0x9f9c_5d79, 0xedee_edc2, 0x1c98_866b, 0xeeee_eeee, 0x0ccf_2bcf, 0xb8b7_089b,
           0x164f_0a2f, 0xd7d7_d7d7, 0xdbf2_b933, 0x2417_0ad7, 0x68cf_72ea, 0xddef_1ded, 0xb8b8_9494, 0x9cac_9567))
  const INNER_70 := Stage(State(0xd075_acad, 0x62a8_8352, 0xc9bb_32e7, 0x1d5b_7638, 0xa4a5_3c84),
    Window(0xdbf2_b933, 0x2417_0ad7, 0x68cf_72ea, 0xddef_1ded, 0xb8b8_9494, 0x9cac_9567, 0xfe2a_50d5, 0x5555_5555,
           0x88b5_ee8d, 0xb27a_b25d, 0x5b9b_1436, 0x0606_2a2a, 0x2084_0e52, 0x50ae_bc3b, 0x6b23_93c6, 0x0c23_0c0f))
  const INNER_80 := Stage(State(0xfb08_6ba6, 0x4f5d_6c7a, 0xfc99_dce6, 0x188e_117f, 0xe629_d79e),
    Window(0x5b9b_1436, 0x0606_2a2a, 0x2084_0e52, 0x50ae_bc3b, 0x6b23_93c6, 0x0c23_0c0f, 0xd64d_32de, 0x4142_6d42,
           0x0f9f_fc8f, 0x2211_20fd, 0x4ea9_4ea2, 0x2d91_010d, 0x7f5a_1ac6, 0x4b4b_4b4b, 0x51e5_92d0, 0x14c9_dfe7))

  const INNER_TO_10 :=
    Next(0x1c07_e906, 0x94ca_ccca, Next(0x1de4_2406, 0x0000_0000, Next(0x61e9_5870, 0x0000_0000,
    Next(0x8ee8_917d, 0x45f9_f5f9, Next(0x4f05_d241, 0x6c6c_6c6c, Next(0x01ee_0a55, 0x6c6c_6c6c,
    Next(0xa96d_07cd, 0xe79f_879e, Next(0x3aa4_23ba, 0xb4b4_b4b4, Next(0x9be0_be0a, 0xf14d_414d,
    Next(0xcaed_6769, 0xcf3f_0f3d, End))))))))))

  lemma Inner10()
    ensures Leads(INNER_0, 0, INNER_TO_10, INNER_10, 10)
  {
  }

  const INNER_TO_20 :=
    Next(0x199c_6998, 0x6969_6969, Next(0xb589_544b, 0x6969_6969, Next(0x8784_91cd, 0x46a6_c6a3,
    Next(0x6e76_32d3, 0x0a0a_0a0a, Next(0x579d_7f38, 0x5814_2816, Next(0x6c30_1692, 0x8848_8843,
    Next(0xd6af_7a35, 0xdf1b_0f1a, Next(0x2a00_836c, 0xa5a5_a5a5, Next(0x097c_79c0, 0x1a9b_1a8d,
    Next(0x96ff_8ded, 0x3fcf_ffcd, End))))))))))

  lemma Inner20()
    ensures Leads(INNER_10, 10, INNER_TO_20, INNER_20, 20)
  {
  }

  const INNER_TO_30 :=
    Next(0xcc9b_a2f9, 0xd1e1_11e8, Next(0x8287_4919, 0x9093_90bf, Next(0x5d5e_173c, 0xe212_2210,
    Next(0x65ce_e92c, 0x4444_4444, Next(0xce9d_63b9, 0xaf59_6f03, Next(0x9725_197a, 0xc3c3_c3c3,
    Next(0xde41_b2df, 0xe221_e206, Next(0xb5c3_32b3, 0xe7eb_e75b, Next(0x8f8a_6f74, 0x1920_793c,
    Next(0xc573_5584, 0xe1e1_e1e1, End))))))))))

  lemma Inner30()
    ensures Leads(INNER_20, 20, INNER_TO_30, INNER_30, 30)
  {
  }

  const INNER_TO_40 :=
    Next(0xb08c_da1c, 0x05ed_c48f, Next(0x0c2f_2726, 0xe112_213c, Next(0x637d_40c8, 0x1671_36eb,
    Next(0xb95b_0aef, 0xb888_ba48, Next(0xb288_f90c, 0x9093_90bf, Next(0x4e7b_d69f, 0xbd8d_7d84,
    Next(0xd743_06c0, 0x24b7_e119, Next(0x8d3c_cf13, 0x4b4b_4b4b, Next(0x0f5c_8001, 0xea57_e831,
    Next(0x36c3_694d, 0x8444_8f44, End))))))))))

  lemma Inner40()
    ensures Leads(INNER_30, 30, INNER_TO_40, INNER_40, 40)
  {
  }

  const INNER_TO_50 :=
    Next(0x11dd_ccac, 0x2085_e14a, Next(0x2830_f915, 0xedee_edc2, Next(0x9c81_bd4b, 0xdfad_0983,
    Next(0x5747_68bd, 0x3605_34e9, Next(0xeadf_6760, 0xab29_62d1, Next(0x1866_6c5a, 0x282b_042b,
    Next(0xd3b4_ba55, 0x9f9c_5d79, Next(0xe6dd_707e, 0xedee_edc2, Next(0x69c2_7926, 0x1c98_866b,
    Next(0xa188_afdf, 0xeeee_eeee, End))))))))))

  lemma Inner50()
    ensures Leads(INNER_40, 40, INNER_TO_50, INNER_50, 50)
  {
  }

  const INNER_TO_60 :=
    Next(0x50c6_60bc, 0x0ccf_2bcf, Next(0x9413_1ede, 0xb8b7_089b, Next(0xc851_00e3, 0x164f_0a2f,
    Next(0x132a_dde8, 0xd7d7_d7d7, Next(0x4b43_0ead, 0xdbf2_b933, Next(0x42f8_7fb0, 0x2417_0ad7,
    Next(0xf5f8_621d, 0x68cf_72ea, Next(0x7104_264e, 0xddef_1ded, Next(0xe510_8b54, 0xb8b8_9494,
    Next(0x2b41_3eda, 0x9cac_9567, End))))))))))

  lemma Inner60()
    ensures Leads(INNER_50, 50, INNER_TO_60, INNER_60, 60)
  {
  }

  const INNER_TO_70 :=
    Next(0xf2a1_ba18, 0xfe2a_50d5, Next(0x5287_3742, 0x5555_5555, Next(0x985c_e8a7, 0x88b5_ee8d,
    Next(0xe231_fdd2, 0xb27a_b25d, Next(0xe860_9e44, 0x5b9b_1436, Next(0x9294_f212, 0x0606_2a2a,
    Next(0x756d_d8e0, 0x2084_0e52, Next(0x26ec_cb9f, 0x50ae_bc3b, Next(0x62a8_8352, 0x6b23_93c6,
    Next(0xd075_acad, 0x0c23_0c0f, End))))))))))

  lemma Inner70()
    ensures Leads(INNER_60, 60, INNER_TO_70, INNER_70, 70)
  {
  }

  const INNER_TO_80 :=
    Next(0x0ff9_14d4, 0xd64d_32de, Next(0x8c5c_9c04, 0x4142_6d42, Next(0x6bcf_4763, 0x0f9f_fc8f,
    Next(0xb6a4_9f1e, 0x2211_20fd, Next(0x16f2_cac2, 0x4ea9_4ea2, Next(0x98a7_5e7b, 0x2d91_010d,
    Next(0x6238_45fc, 0x7f5a_1ac6, Next(0xf267_739b, 0x4b4b_4b4b, Next(0x4f5d_6c7a, 0x51e5_92d0,
    Next(0xfb08_6ba6, 0x14c9_dfe7, End))))))))))

  lemma Inner80()
    ensures Leads(INNER_70, 70, INNER_TO_80, INNER_80, 80)
  {
  }

  lemma InnerCompresses(block: seq<Octet>)
    requires Holds(block, INNER_0.x)
    ensures Compress(INNER_0.v, block)
         == State(0x624d_8ea7, 0x3f2b_1803, 0x9554_b9e4, 0x28c0_65f5, 0xa9fc_b98e)
  {
    hide Holds, Reaches, Leads, Compress;
    FirstStage(block, INNER_0.v, INNER_0.x);
    Inner10();
    FollowTrail(block, INNER_0.v, 0, INNER_0, INNER_TO_10, INNER_10, 10);
    Inner20();
    FollowTrail(block, INNER_0.v, 10, INNER_10, INNER_TO_20, INNER_20, 20);
    Inner30();
    FollowTrail(block, INNER_0.v, 20, INNER_20, INNER_TO_30, INNER_30, 30);
    Inner40();
    FollowTrail(block, INNER_0.v, 30, INNER_30, INNER_TO_40, INNER_40, 40);
    Inner50();
    FollowTrail(block, INNER_0.v, 40, INNER_40, INNER_TO_50, INNER_50, 50);
    Inner60();
    FollowTrail(block, INNER_0.v, 50, INNER_50, INNER_TO_60, INNER_60, 60);
    Inner70();
    FollowTrail(block, INNER_0.v, 60, INNER_60, INNER_TO_70, INNER_70, 70);
    Inner80();
    FollowTrail(block, INNER_0.v, 70, INNER_70, INNER_TO_80, INNER_80, 80);
    LastStage(block, INNER_0.v, INNER_80);
    assert Add(INNER_0.v, INNER_80.v) == State(0x624d_8ea7, 0x3f2b_1803, 0x9554_b9e4, 0x28c0_65f5, 0xa9fc_b98e);
  }

  // ----------------------------------------------------------------------------- the text

  const TEXT_0 := Stage(State(0x624d_8ea7, 0x3f2b_1803, 0x9554_b9e4, 0x28c0_65f5, 0xa9fc_b98e),
    Window(0x7768_6174, 0x2064_6f20, 0x7961_2077, 0x616e_7420, 0x666f_7220, 0x6e6f_7468, 0x696e_673f, 0x8000_0000,
           0x0000_0000, 0x0000_0000, 0x0000_0000, 0x0000_0000, 0x0000_0000, 0x0000_0000, 0x0000_0000, 0x0000_02e0))
  const TEXT_10 := Stage(State(0xbaae_ad2a, 0x7712_d7ad, 0x15c7_c312, 0xf32a_b601, 0x8b87_cd82),
    Window(0x0000_0000, 0x0000_0000, 0x0000_0000, 0x0000_0000, 0x0000_0000, 0x0000_02e0, 0x1c12_8206, 0x8214_3600,
           0x3e1c_a16e, 0x2627_049c, 0x1a2a_463f, 0xa0e7_aa0d, 0x9e92_c746, 0x3454_89bf, 0x79ea_5017, 0x390d_e28c))
  const TEXT_20 := Stage(State(0xf17d_64a1, 0x8af5_9f4f, 0x9d98_377c, 0xf14d_8cb3, 0xa84a_dd1a),
    Window(0x1a2a_463f, 0xa0e7_aa0d, 0x9e92_c746, 0x3454_89bf, 0x79ea_5017, 0x390d_e28c, 0x1490_51a2, 0xbf9a_a916,
           0x464f_4966, 0x68ef_f29f, 0x7a35_d8ac, 0xe01f_e873, 0x6617_03c0, 0xce16_1179, 0xa172_bd01, 0xbe9a_088e))
  const TEXT_30 := Stage(State(0x26ab_5b8c, 0xbdcf_89ac, 0x2deb_05ab, 0xf094_ed5d, 0xfbf1_e19f),
    Window(0x7a35_d8ac, 0xe01f_e873, 0x6617_03c0, 0xce16_1179, 0xa172_bd01, 0xbe9a_088e, 0x19c3_b2cc, 0xba5c_d858,
           0x47ae_8ee6, 0xe90a_6319, 0x6263_b45b, 0x1e5f_a80a, 0x354f_8db8, 0x1719_ceb8, 0x77cd_1618, 0x0fc6_9e18))
  const TEXT_40 := Stage(State(0x0bd9_d1e0, 0x16cb_6d6a, 0xdc88_236f, 0x380c_e270, 0x7c5a_e14d),
    Window(0x6263_b45b, 0x1e5f_a80a, 0x354f_8db8, 0x1719_ceb8, 0x77cd_1618, 0x0fc6_9e18, 0x992b_3664, 0x619d_1817,
           0x5581_2905, 0xeff1_0f33, 0xd8c7_34c5, 0x8cbc_6ed6, 0x8ca2_4a03, 0x08ae_2339, 0x60b4_c41e, 0x34d5_320e))
  const TEXT_50 := Stage(State(0xa9f9_93c9, 0xf690_86f3, 0xfde0_f31f, 0xfecd_9d8b, 0xc507_bd2f),
    Window(0xd8c7_34c5, 0x8cbc_6ed6, 0x8ca2_4a03, 0x08ae_2339, 0x60b4_c41e, 0x34d5_320e, 0x1406_67be, 0x0c07_5b3f,
           0x5d21_3ad7, 0x00ca_b391, 0xdc86_6280, 0x77a9_3fc2, 0x59a8_d1dd, 0xcc7e_8f54, 0xddd2_8b79, 0x6dc5_d60e))
  const TEXT_60 := Stage(State(0xf51b_6187, 0x1121_4858, 0x5632_21f3, 0x7c66_ab4b, 0x66dc_58fa),
    Window(0xdc86_6280, 0x77a9_3fc2, 0x59a8_d1dd, 0xcc7e_8f54, 0xddd2_8b79, 0x6dc5_d60e, 0x8a75_968b, 0xb214_ea0e,
           0xbaaa_7526, 0x834f_70fd, 0x3e1d_30e7, 0x9c0d_2686, 0x2f75_4dda, 0xbe2a_1c8e, 0x2fbf_d0b5, 0xd404_570f))
  const TEXT_70 := Stage(State(0x3a45_be95, 0xde43_cc60, 0xf3cc_8479, 0xc30f_e0c5, 0x100c_09db),
    Window(0x3e1d_30e7, 0x9c0d_2686, 0x2f75_4dda, 0xbe2a_1c8e, 0x2fbf_d0b5, 0xd404_570f, 0x035d_b5eb, 0x2e4e_21bc,
           0xdcc6_7a98, 0x7dd7_946e, 0xad38_e328, 0x7a7a_b42d, 0xc56f_4eec, 0x90ce_5da8, 0xfb20_880f, 0xe8c6_7257))
  const TEXT_80 := Stage(State(0x3637_839d, 0xfbce_0454, 0x0e38_28f8, 0x6603_21a1, 0xc20c_2536),
    Window(0xad38_e328, 0x7a7a_b42d, 0xc56f_4eec, 0x90ce_5da8, 0xfb20_880f, 0xe8c6_7257, 0xbac0_b41a, 0x49a0_4cd3,
           0x8a68_1820, 0x5528_976d, 0x405a_cec3, 0xc1d8_6677, 0xe327_a022, 0xf60a_128d, 0x15cc_97ba, 0x5a55_9965))

  const TEXT_TO_10 :=
    Next(0xdb59_e77b, 0x1c12_8206, Next(0xe63c_f569, 0x8214_3600, Next(0x0d6a_6459, 0x3e1c_a16e,
    Next(0x379f_b2a2, 0x2627_049c, Next(0x8919_e186, 0x1a2a_463f, Next(0x2e1f_360a, 0xa0e7_aa0d,
    Next(0xccaa_d807, 0x9e92_c746, Next(0x571f_0c48, 0x3454_89bf, Next(0x7712_d7ad, 0x79ea_5017,
    Next(0xbaae_ad2a, 0x390d_e28c, End))))))))))

  lemma Text10()
    ensures Leads(TEXT_0, 0, TEXT_TO_10, TEXT_10, 10)
  {
  }

  const TEXT_TO_20 :=
    Next(0xd10a_cf72, 0x1490_51a2, Next(0x8ccd_052e, 0xbf9a_a916, Next(0x96b9_9e47, 0x464f_4966,
    Next(0x35dd_a3c2, 0x68ef_f29f, Next(0x6755_bf04, 0x7a35_d8ac, Next(0xa12b_746a, 0xe01f_e873,
    Next(0xc536_32cf, 0x6617_03c0, Next(0x7660_ddf2, 0xce16_1179, Next(0x8af5_9f4f, 0xa172_bd01,
    Next(0xf17d_64a1, 0xbe9a_088e, End))))))))))

  lemma Text20()
    ensures Leads(TEXT_10, 10, TEXT_TO_20, TEXT_20, 20)
  {
  }

  const TEXT_TO_30 :=
    Next(0x471b_c7b8, 0x19c3_b2cc, Next(0x72e0_4d77, 0xba5c_d858, Next(0xe108_9294, 0x47ae_8ee6,
    Next(0xc678_1580, 0xe90a_6319, Next(0x609c_b51f, 0x6263_b45b, Next(0xefc7_867f, 0x1e5f_a80a,
    Next(0xc253_b577, 0x354f_8db8, Next(0xb7ac_16ac, 0x1719_ceb8, Next(0xbdcf_89ac, 0x77cd_1618,
    Next(0x26ab_5b8c, 0x0fc6_9e18, End))))))))))

  lemma Text30()
    ensures Leads(TEXT_20, 20, TEXT_TO_30, TEXT_30, 30)
  {
  }

  const TEXT_TO_40 :=
    Next(0x1b1d_78ca, 0x992b_3664, Next(0xc771_9700, 0x619d_1817, Next(0x2ed3_2166, 0x5581_2905,
    Next(0x8ee4_2c1b, 0xeff1_0f33, Next(0x9045_1d8a, 0xd8c7_34c5, Next(0xf16b_8535, 0x8cbc_6ed6,
    Next(0xe033_89c0, 0x8ca2_4a03, Next(0x7220_8dbf, 0x08ae_2339, Next(0x16cb_6d6a, 0x60b4_c41e,
    Next(0x0bd9_d1e0, 0x34d5_320e, End))))))))))

  lemma Text40()
    ensures Leads(TEXT_30, 30, TEXT_TO_40, TEXT_40, 40)
  {
  }

  const TEXT_TO_50 :=
    Next(0x059c_f1ef, 0x1406_67be, Next(0x26bf_58a0, 0x0c07_5b3f, Next(0x7e95_7381, 0x5d21_3ad7,
    Next(0x018e_5395, 0x00ca_b391, Next(0x8551_3035, 0xdc86_6280, Next(0x141e_f4bf, 0x77a9_3fc2,
    Next(0xfb36_762f, 0x59a8_d1dd, Next(0xf783_cc7f, 0xcc7e_8f54, Next(0xf690_86f3, 0xddd2_8b79,
    Next(0xa9f9_93c9, 0x6dc5_d60e, End))))))))))

  lemma Text50()
    ensures Leads(TEXT_40, 40, TEXT_TO_50, TEXT_50, 50)
  {
  }

  const TEXT_TO_60 :=
    Next(0x6add_bfa0, 0x8a75_968b, Next(0x743e_70e7, 0xb214_ea0e, Next(0x0c69_3c9c, 0xbaaa_7526,
    Next(0x9cd3_fa34, 0x834f_70fd, Next(0x10fd_6937, 0x3e1d_30e7, Next(0x9b71_63e9, 0x9c0d_2686,
    Next(0xf19a_ad2d, 0x2f75_4dda, Next(0x58c8_87cd, 0xbe2a_1c8e, Next(0x1121_4858, 0x2fbf_d0b5,
    Next(0xf51b_6187, 0xd404_570f, End))))))))))

  lemma Text60()
    ensures Leads(TEXT_50, 50, TEXT_TO_60, TEXT_60, 60)
  {
  }

  const TEXT_TO_70 :=
    Next(0xeca7_712e, 0x035d_b5eb, Next(0xfac1_e522, 0x2e4e_21bc, Next(0xe824_555e, 0xdcc6_7a98,
    Next(0x5c63_3025, 0x7dd7_946e, Next(0x1fa0_1ab8, 0xad38_e328, Next(0x4030_276c, 0x7a7a_b42d,
    Next(0x0c3f_8317, 0xc56f_4eec, Next(0xcf32_11e7, 0x90ce_5da8, Next(0xde43_cc60, 0xfb20_880f,
    Next(0x3a45_be95, 0xe8c6_7257, End))))))))))

  lemma Text70()
    ensures Leads(TEXT_60, 60, TEXT_TO_70, TEXT_70, 70)
  {
  }

  const TEXT_TO_80 :=
    Next(0x4fc4_781b, 0xbac0_b41a, Next(0x2028_967e, 0x49a0_4cd3, Next(0x297d_4893, 0x8a68_1820,
    Next(0xad0f_cbbe, 0x5528_976d, Next(0x5d33_ed0f, 0x405a_cec3, Next(0x0830_94db, 0xc1d8_6677,
    Next(0x980c_8685, 0xe327_a022, Next(0x38e0_a3e0, 0xf60a_128d, Next(0xfbce_0454, 0x15cc_97ba,
    Next(0x3637_839d, 0x5a55_9965, End))))))))))

  lemma Text80()
    ensures Leads(TEXT_70, 70, TEXT_TO_80, TEXT_80, 80)
  {
  }

  lemma TextCompresses(block: seq<Octet>)
    requires Holds(block, TEXT_0.x)
    ensures Compress(TEXT_0.v, block)
         == State(0x9885_1244, 0x3af9_1c57, 0xa38c_e2dc, 0x8ec3_8796, 0x6c08_dec4)
  {
    hide Holds, Reaches, Leads, Compress;
    FirstStage(block, TEXT_0.v, TEXT_0.x);
    Text10();
    FollowTrail(block, TEXT_0.v, 0, TEXT_0, TEXT_TO_10, TEXT_10, 10);
    Text20();
    FollowTrail(block, TEXT_0.v, 10, TEXT_10, TEXT_TO_20, TEXT_20, 20);
    Text30();
    FollowTrail(block, TEXT_0.v, 20, TEXT_20, TEXT_TO_30, TEXT_30, 30);
    Text40();
    FollowTrail(block, TEXT_0.v, 30, TEXT_30, TEXT_TO_40, TEXT_40, 40);
    Text50();
    FollowTrail(block, TEXT_0.v, 40, TEXT_40, TEXT_TO_50, TEXT_50, 50);
    Text60();
    FollowTrail(block, TEXT_0.v, 50, TEXT_50, TEXT_TO_60, TEXT_60, 60);
    Text70();
    FollowTrail(block, TEXT_0.v, 60, TEXT_60, TEXT_TO_70, TEXT_70, 70);
    Text80();
    FollowTrail(block, TEXT_0.v, 70, TEXT_70, TEXT_TO_80, TEXT_80, 80);
    LastStage(block, TEXT_0.v, TEXT_80);
    assert Add(TEXT_0.v, TEXT_80.v) == State(0x9885_1244, 0x3af9_1c57, 0xa38c_e2dc, 0x8ec3_8796, 0x6c08_dec4);
  }

  // ------------------------------------------------------------------ the outer key block

  const OUTER_0 := Stage(State(0x6745_2301, 0xefcd_ab89, 0x98ba_dcfe, 0x1032_5476, 0xc3d2_e1f0),
    Window(0x1639_3a39, 0x5c5c_5c5c, 0x5c5c_5c5c, 0x5c5c_5c5c, 0x5c5c_5c5c, 0x5c5c_5c5c, 0x5c5c_5c5c, 0x5c5c_5c5c,
           0x5c5c_5c5c, 0x5c5c_5c5c, 0x5c5c_5c5c, 0x5c5c_5c5c, 0x5c5c_5c5c, 0x5c5c_5c5c, 0x5c5c_5c5c, 0x5c5c_5c5c))
  const OUTER_10 := Stage(State(0x6804_302e, 0x6094_403e, 0x926c_b59c, 0xf6f8_3700, 0xe97e_7962),
    Window(0x5c5c_5c5c, 0x5c5c_5c5c, 0x5c5c_5c5c, 0x5c5c_5c5c, 0x5c5c_5c5c, 0x5c5c_5c5c, 0x94ca_ccca, 0x0000_0000,
           0x0000_0000, 0x912d_212d, 0xb8b8_b8b8, 0xb8b8_b8b8, 0x9ae2_fae3, 0xc9c9_c9c9, 0x58e4_e8e4, 0x35c5_f5c7))
  const OUTER_20 := Stage(State(0xf7dc_63c8, 0xf5df_d518, 0x1e1a_79df, 0xe962_2b27, 0xcdce_51ba),
    Window(0xb8b8_b8b8, 0xb8b8_b8b8, 0x9ae2_fae3, 0xc9c9_c9c9, 0x58e4_e8e4, 0x35c5_f5c7, 0x9393_9393, 0x9393_9393,
           0x1afa_9aff, 0x5656_5656, 0x83cf_f3cd, 0x1ede_1ed5, 0x34f0_e4f1, 0x4e4e_4e4e, 0x6bea_6bfc, 0x1ded_ddef))
  const OUTER_30 := Stage(State(0x9c95_a7b9, 0xa12b_8265, 0xd692_a097, 0x871c_9e04, 0x6fa0_5cb7),
    Window(0x83cf_f3cd, 0x1ede_1ed5, 0x34f0_e4f1, 0x4e4e_4e4e, 0x6bea_6bfc, 0x1ded_ddef, 0xeddd_2dd4, 0x999a_99b6,
           0xb848_784a, 0x1e1e_1e1e, 0xcc3a_0c60, 0xa0a0_a0a0, 0xf93a_f91d, 0x2824_2894, 0xa891_c88d, 0x5050_5050))
  const OUTER_40 := Stage(State(0x9453_eeb9, 0x7f4a_d0cf, 0xdc53_289b, 0x3fbf_3d3e, 0x3f41_063c),
    Window(0xcc3a_0c60, 0xa0a0_a0a0, 0xf93a_f91d, 0x2824_2894, 0xa891_c88d, 0x5050_5050, 0x4ea6_8fc4, 0xcc3f_0c11,
           0x86e1_a67b, 0x7b4b_798b, 0x6665_6649, 0x5565_956c, 0x0c9f_c931, 0x6363_6363, 0xdf62_dd04, 0xfc3c_f73c))
  const OUTER_50 := Stage(State(0xb82d_9e50, 0x6e8d_df18, 0x6c89_f17b, 0x3795_61a9, 0x39d0_9a64),
    Window(0x6665_6649, 0x5565_956c, 0x0c9f_c931, 0x6363_6363, 0xdf62_dd04, 0xfc3c_f73c, 0xa104_60cb, 0x595a_5976,
           0x97e5_41cb, 0x182b_1ac7, 0x67e5_ae1d, 0xd1d2_fdd2, 0x1e1d_dcf8, 0x595a_5976, 0x20a4_ba57, 0xd2d2_d2d2))
  const OUTER_60 := Stage(State(0x4a8e_ba96, 0x688e_ac19, 0xd9cb_061a, 0x8b9e_4595, 0xe6ca_b9ef),
    Window(0x67e5_ae1d, 0xd1d2_fdd2, 0x1e1d_dcf8, 0x595a_5976, 0x20a4_ba57, 0xd2d2_d2d2, 0x488b_6f8b, 0x1d12_ad3e,
           0xcd94_d1f4, 0x0c0c_0c0c, 0xfad3_9812, 0x6350_4d90, 0x3493_2eb6, 0xd2e0_12e2, 0xb7b7_9b9b, 0xc0f0_c93b))
  const OUTER_70 := Stage(State(0x0880_986a, 0xd0ec_d11a, 0x3e8c_60b4, 0x059b_0316, 0xcc64_a939),
    Window(0xfad3_9812, 0x6350_4d90, 0x3493_2eb6, 0xd2e0_12e2, 0xb7b7_9b9b, 0xc0f0_c93b, 0xcd19_63e6, 0x6666_6666,
           0x0934_6f0c, 0x4b83_4ba4, 0x75b5_3a18, 0x2828_0404, 0xf256_dc80, 0x48b6_a423, 0xa4ec_5c09, 0xf6d9_f6f5))
  const OUTER_80 := Stage(State(0xb943_1429, 0x0538_6518, 0x5f74_ae07, 0x7e19_a9bc, 0x6438_6c45),
    Window(0x75b5_3a18, 0x2828_0404, 0xf256_dc80, 0x48b6_a423, 0xa4ec_5c09, 0xf6d9_f6f5, 0x1f84_fb17, 0xbdbe_91be,
           0x0090_f380, 0x4b78_4994, 0x6a8d_6a86, 0xdd61_f1fd, 0x5772_32ee, 0x6363_6363, 0x7cc8_bffd, 0x12cf_d9e1))

  const OUTER_TO_10 :=
    Next(0xb5ed_d2ec, 0x94ca_ccca, Next(0x80c7_86ff, 0x0000_0000, Next(0xc45d_fba5, 0x0000_0000,
    Next(0x17e5_024a, 0x912d_212d, Next(0xf684_4db6, 0xb8b8_b8b8, Next(0xa5f9_e58b, 0xb8b8_b8b8,
    Next(0xdbe0_dc03, 0x9ae2_fae3, Next(0x49b2_d672, 0xc9c9_c9c9, Next(0x6094_403e, 0x58e4_e8e4,
    Next(0x6804_302e, 0x35c5_f5c7, End))))))))))

  lemma Outer10()
    ensures Leads(OUTER_0, 0, OUTER_TO_10, OUTER_10, 10)
  {
  }

  const OUTER_TO_20 :=
    Next(0x374f_8c40, 0x9393_9393, Next(0x3235_2a99, 0x9393_9393, Next(0x2a11_fac6, 0x1afa_9aff,
    Next(0x1954_64db, 0x5656_5656, Next(0x892f_c8f9, 0x83cf_f3cd, Next(0x3739_46eb, 0x1ede_1ed5,
    Next(0xa588_ac9f, 0x34f0_e4f1, Next(0x7869_e77c, 0x4e4e_4e4e, Next(0xf5df_d518, 0x6bea_6bfc,
    Next(0xf7dc_63c8, 0x1ded_ddef, End))))))))))

  lemma Outer20()
    ensures Leads(OUTER_10, 10, OUTER_TO_20, OUTER_20, 20)
  {
  }

  const OUTER_TO_30 :=
    Next(0xf394_f711, 0xeddd_2dd4, Next(0x5845_a10f, 0x999a_99b6, Next(0x239f_9cf3, 0xb848_784a,
    Next(0x0366_cd4d, 0x1e1e_1e1e, Next(0xfbfb_608b, 0xcc3a_0c60, Next(0xbe81_72dd, 0xa0a0_a0a0,
    Next(0x1c72_7812, 0xf93a_f91d, Next(0x5a4a_825f, 0x2824_2894, Next(0xa12b_8265, 0xa891_c88d,
    Next(0x9c95_a7b9, 0x5050_5050, End))))))))))

  lemma Outer30()
    ensures Leads(OUTER_20, 20, OUTER_TO_30, OUTER_30, 30)
  {
  }

  const OUTER_TO_40 :=
    Next(0xe5a4_f04e, 0x4ea6_8fc4, Next(0xebc0_9a0d, 0xcc3f_0c11, Next(0xdd3c_2c1f, 0x86e1_a67b,
    Next(0x0285_6e73, 0x7b4b_798b, Next(0xb13c_c67a, 0x6665_6649, Next(0xfd04_18f0, 0x5565_956c,
    Next(0xfefc_f4f8, 0x0c9f_c931, Next(0x714c_a26f, 0x6363_6363, Next(0x7f4a_d0cf, 0xdf62_dd04,
    Next(0x9453_eeb9, 0xfc3c_f73c, End))))))))))

  lemma Outer40()
    ensures Leads(OUTER_30, 30, OUTER_TO_40, OUTER_40, 40)
  {
  }

  const OUTER_TO_50 :=
    Next(0xa46f_df49, 0xa104_60cb, Next(0xd9cb_30a9, 0x595a_5976, Next(0x8366_f2fa, 0x97e5_41cb,
    Next(0x6d0c_ec9d, 0x182b_1ac7, Next(0xa1d3_0bbe, 0x67e5_ae1d, Next(0xe742_6990, 0xd1d2_fdd2,
    Next(0xde55_86a4, 0x1e1d_dcf8, Next(0xb227_c5ed, 0x595a_5976, Next(0x6e8d_df18, 0x20a4_ba57,
    Next(0xb82d_9e50, 0xd2d2_d2d2, End))))))))))

  lemma Outer50()
    ensures Leads(OUTER_40, 40, OUTER_TO_50, OUTER_50, 50)
  {
  }

  const OUTER_TO_60 :=
    Next(0xa393_78d9, 0x488b_6f8b, Next(0xc72f_c677, 0x1d12_ad3e, Next(0x19c1_be54, 0xcd94_d1f4,
    Next(0xb48a_28be, 0x0c0c_0c0c, Next(0xa791_175e, 0xfad3_9812, Next(0x9b2a_e7bf, 0x6350_4d90,
    Next(0x2e79_1656, 0x3493_2eb6, Next(0x672c_186b, 0xd2e0_12e2, Next(0x688e_ac19, 0xb7b7_9b9b,
    Next(0x4a8e_ba96, 0xc0f0_c93b, End))))))))))

  lemma Outer60()
    ensures Leads(OUTER_50, 50, OUTER_TO_60, OUTER_60, 60)
  {
  }

  const OUTER_TO_70 :=
    Next(0xa5c6_6c41, 0xcd19_63e6, Next(0xaa07_a4fb, 0x6666_6666, Next(0x7086_ae3f, 0x0934_6f0c,
    Next(0xe08c_1f8e, 0x4b83_4ba4, Next(0x82a5_f8bf, 0x75b5_3a18, Next(0x3192_a4e7, 0x2828_0404,
    Next(0x166c_0c58, 0xf256_dc80, Next(0xfa31_82d0, 0x48b6_a423, Next(0xd0ec_d11a, 0xa4ec_5c09,
    Next(0x0880_986a, 0xf6d9_f6f5, End))))))))))

  lemma Outer70()
    ensures Leads(OUTER_60, 60, OUTER_TO_70, OUTER_70, 70)
  {
  }

  const OUTER_TO_80 :=
    Next(0x8da9_c31a, 0x1f84_fb17, Next(0x6abe_4265, 0xbdbe_91be, Next(0x50fd_6f33, 0x0090_f380,
    Next(0xbd20_0421, 0x4b78_4994, Next(0x5173_972e, 0x6a8d_6a86, Next(0x90e1_b115, 0xdd61_f1fd,
    Next(0xf866_a6f1, 0x5772_32ee, Next(0x7dd2_b81d, 0x6363_6363, Next(0x0538_6518, 0x7cc8_bffd,
    Next(0xb943_1429, 0x12cf_d9e1, End))))))))))

  lemma Outer80()
    ensures Leads(OUTER_70, 70, OUTER_TO_80, OUTER_80, 80)
  {
  }

  lemma OuterCompresses(block: seq<Octet>)
    requires Holds(block, OUTER_0.x)
    ensures Compress(OUTER_0.v, block)
         == State(0x2088_372a, 0xf506_10a1, 0xf82f_8b05, 0x8e4b_fe32, 0x280b_4e35)
  {
    hide Holds, Reaches, Leads, Compress;
    FirstStage(block, OUTER_0.v, OUTER_0.x);
    Outer10();
    FollowTrail(block, OUTER_0.v, 0, OUTER_0, OUTER_TO_10, OUTER_10, 10);
    Outer20();
    FollowTrail(block, OUTER_0.v, 10, OUTER_10, OUTER_TO_20, OUTER_20, 20);
    Outer30();
    FollowTrail(block, OUTER_0.v, 20, OUTER_20, OUTER_TO_30, OUTER_30, 30);
    Outer40();
    FollowTrail(block, OUTER_0.v, 30, OUTER_30, OUTER_TO_40, OUTER_40, 40);
    Outer50();
    FollowTrail(block, OUTER_0.v, 40, OUTER_40, OUTER_TO_50, OUTER_50, 50);
    Outer60();
    FollowTrail(block, OUTER_0.v, 50, OUTER_50, OUTER_TO_60, OUTER_60, 60);
    Outer70();
    FollowTrail(block, OUTER_0.v, 60, OUTER_60, OUTER_TO_70, OUTER_70, 70);
    Outer80();
    FollowTrail(block, OUTER_0.v, 70, OUTER_70, OUTER_TO_80, OUTER_80, 80);
    LastStage(block, OUTER_0.v, OUTER_80);
    assert Add(OUTER_0.v, OUTER_80.v) == State(0x2088_372a, 0xf506_10a1, 0xf82f_8b05, 0x8e4b_fe32, 0x280b_4e35);
  }

  // ----------------------------------------------------------------------- the inner hash

  const MAC_0 := Stage(State(0x2088_372a, 0xf506_10a1, 0xf82f_8b05, 0x8e4b_fe32, 0x280b_4e35),
    Window(0x9885_1244, 0x3af9_1c57, 0xa38c_e2dc, 0x8ec3_8796, 0x6c08_dec4, 0x8000_0000, 0x0000_0000, 0x0000_0000,
           0x0000_0000, 0x0000_0000, 0x0000_0000, 0x0000_0000, 0x0000_0000, 0x0000_0000, 0x0000_0000, 0x0000_02a0))
  const MAC_10 := Stage(State(0x5de5_3c20, 0xc471_77a4, 0x5eee_3f88, 0xce02_215b, 0x6634_ac95),
    Window(0x0000_0000, 0x0000_0000, 0x0000_0000, 0x0000_0000, 0x0000_0000, 0x0000_02a0, 0x7613_e130, 0x6875_3783,
           0x9f08_7d71, 0xf1a0_cd4c, 0x08fb_d28e, 0x3e10_fae2, 0xe341_9a99, 0x11f7_a05c, 0x9006_37a4, 0x1669_5a35))
  const MAC_20 := Stage(State(0xf263_fb99, 0x7b43_8a71, 0x5cef_6235, 0xcf91_f6b1, 0x8245_7773),
    Window(0x08fb_d28e, 0x3e10_fae2, 0xe341_9a99, 0x11f7_a05c, 0x9006_37a4, 0x1669_5a35, 0x1dff_ba5b, 0xc34d_f5d0,
           0x3d25_1176, 0x47de_8432, 0xac3f_1cf2, 0x894f_0812, 0x7d86_5fae, 0x4707_7810, 0x0686_3b6c, 0xe2f7_3ba0))
  const MAC_30 := Stage(State(0x611b_cbc6, 0x8742_4749, 0x2d4b_e5b6, 0x1924_3c6d, 0xd110_d761),
    Window(0xac3f_1cf2, 0x894f_0812, 0x7d86_5fae, 0x4707_7810, 0x0686_3b6c, 0xe2f7_3ba0, 0x2330_42e3, 0xdd7f_cbc0,
           0x7b1f_14de, 0x5bc3_6131, 0x5a00_3322, 0xd279_8657, 0xfb3f_e2e0, 0x78c8_f2c0, 0xc0a7_9260, 0xd1a3_4a01))
  const MAC_40 := Stage(State(0xd2f4_002f, 0x2c19_e00f, 0xf3a2_2f1a, 0xc567_ad01, 0x57c8_9bfb),
    Window(0x5a00_3322, 0xd279_8657, 0xfb3f_e2e0, 0x78c8_f2c0, 0xc0a7_9260, 0xd1a3_4a01, 0xa4dd_4a85, 0xaa59_06a6,
           0xe146_3bc3, 0xa6a9_1ec5, 0xe9a1_3b92, 0x4c0c_72c7, 0x7c43_b530, 0x7d7d_b6c5, 0x939c_3f7d, 0xbf40_a9e0))
  const MAC_50 := Stage(State(0x2783_941c, 0xcf5a_f42f, 0x2f97_8b3a, 0x5f91_42ff, 0xf293_cb68),
    Window(0xe9a1_3b92, 0x4c0c_72c7, 0x7c43_b530, 0x7d7d_b6c5, 0x939c_3f7d, 0xbf40_a9e0, 0x7a08_b988, 0x3f08_aa5f,
           0xdaf3_c5e4, 0x3ede_e71d, 0x4e63_8f14, 0xb8e8_7f0d, 0xd1b3_524d, 0xfba6_7d2f, 0x940f_8da9, 0x083d_2820))
  const MAC_60 := Stage(State(0x719d_bd55, 0x3b2f_c430, 0x598f_90c1, 0xff93_97bb, 0x488d_1fab),
    Window(0x4e63_8f14, 0xb8e8_7f0d, 0xd1b3_524d, 0xfba6_7d2f, 0x940f_8da9, 0x083d_2820, 0x696e_6cd3, 0x3741_5d6d,
           0x5302_5af3, 0x2776_19f6, 0x1ecd_13aa, 0x51d8_48c6, 0x2705_d066, 0x2e4c_ed90, 0x584c_ddcb, 0x2ce4_2a37))
  const MAC_70 := Stage(State(0x59fb_4b4f, 0x9cac_6adb, 0xba04_d916, 0xdf2e_7261, 0xddb5_501e),
    Window(0x1ecd_13aa, 0x51d8_48c6, 0x2705_d066, 0x2e4c_ed90, 0x584c_ddcb, 0x2ce4_2a37, 0xc53c_d475, 0x78e9_8c3e,
           0xef2b_ccf2, 0xceff_9378, 0x451b_7a45, 0xfc36_a85f, 0x59be_f127, 0xf390_29d2, 0xe98a_6ae6, 0xaff2_5852))
  const MAC_80 := Stage(State(0xcf74_a840, 0xf0e5_1f01, 0xda44_8bd0, 0x6338_e16a, 0xfd8f_2e44),
    Window(0x451b_7a45, 0xfc36_a85f, 0x59be_f127, 0xf390_29d2, 0xe98a_6ae6, 0xaff2_5852, 0x4ae6_4dd8, 0xb1c2_b990,
           0x2b40_5f75, 0x68f0_4441, 0xea18_8212, 0x19bb_a15d, 0x56da_6c41, 0xe7f9_8a0d, 0xf2da_b465, 0xaba3_dded))

  const MAC_TO_10 :=
    Next(0x2669_ad69, 0x7613_e130, Next(0xe924_cd73, 0x6875_3783, Next(0x73f8_a33f, 0x9f08_7d71,
    Next(0x2e9e_371f, 0xf1a0_cd4c, Next(0x9cbe_b568, 0x08fb_d28e, Next(0x98d2_b255, 0x3e10_fae2,
    Next(0x3808_856f, 0xe341_9a99, Next(0x7bb8_fe21, 0x11f7_a05c, Next(0xc471_77a4, 0x9006_37a4,
    Next(0x5de5_3c20, 0x1669_5a35, End))))))))))

  lemma Mac10()
    ensures Leads(MAC_0, 0, MAC_TO_10, MAC_10, 10)
  {
  }

  const MAC_TO_20 :=
    Next(0xcbc0_e214, 0x1dff_ba5b, Next(0xb3ae_fd35, 0xc34d_f5d0, Next(0x62ac_bfc0, 0x3d25_1176,
    Next(0x1828_099b, 0x47de_8432, Next(0xe7f5_bb49, 0xac3f_1cf2, Next(0x0915_ddce, 0x894f_0812,
    Next(0x3e47_dac7, 0x7d86_5fae, Next(0x73bd_88d5, 0x4707_7810, Next(0x7b43_8a71, 0x0686_3b6c,
    Next(0xf263_fb99, 0xe2f7_3ba0, End))))))))))

  lemma Mac20()
    ensures Leads(MAC_10, 10, MAC_TO_20, MAC_20, 20)
  {
  }

  const MAC_TO_30 :=
    Next(0x2ed7_c7d5, 0x2330_42e3, Next(0x47d2_5309, 0xdd7f_cbc0, Next(0xb5f5_2546, 0x7b1f_14de,
    Next(0x0f46_7389, 0x5bc3_6131, Next(0x13fb_d3bd, 0x5a00_3322, Next(0x4443_5d87, 0xd279_8657,
    Next(0x6490_f1b4, 0xfb3f_e2e0, Next(0xb52f_96d8, 0x78c8_f2c0, Next(0x8742_4749, 0xc0a7_9260,
    Next(0x611b_cbc6, 0xd1a3_4a01, End))))))))))

  lemma Mac30()
    ensures Leads(MAC_20, 20, MAC_TO_30, MAC_30, 30)
  {
  }

  const MAC_TO_40 :=
    Next(0xc2d0_f752, 0xa4dd_4a85, Next(0x98ec_da1a, 0xaa59_06a6, Next(0x728e_08c9, 0xe146_3bc3,
    Next(0x1991_23f0, 0xa6a9_1ec5, Next(0xa3cc_9b9c, 0xe9a1_3b92, Next(0x5f22_6fed, 0x4c0c_72c7,
    Next(0x159e_b407, 0x7c43_b530, Next(0xce88_bc6b, 0x7d7d_b6c5, Next(0x2c19_e00f, 0x939c_3f7d,
    Next(0xd2f4_002f, 0xbf40_a9e0, End))))))))))

  lemma Mac40()
    ensures Leads(MAC_30, 30, MAC_TO_40, MAC_40, 40)
  {
  }

  const MAC_TO_50 :=
    Next(0x8488_3efe, 0x7a08_b988, Next(0x8baa_f80f, 0x3f08_aa5f, Next(0xb7e9_08d2, 0xdaf3_c5e4,
    Next(0x71b6_4a04, 0x3ede_e71d, Next(0x1f33_9e68, 0x4e63_8f14, Next(0xca4f_2da3, 0xb8e8_7f0d,
    Next(0x7e45_0bfd, 0xd1b3_524d, Next(0xbe5e_2ce8, 0xfba6_7d2f, Next(0xcf5a_f42f, 0x940f_8da9,
    Next(0x2783_941c, 0x083d_2820, End))))))))))

  lemma Mac50()
    ensures Leads(MAC_40, 40, MAC_TO_50, MAC_50, 50)
  {
  }

  const MAC_TO_60 :=
    Next(0xab57_0999, 0x696e_6cd3, Next(0xcd32_42f1, 0x3741_5d6d, Next(0x8d16_088a, 0x5302_5af3,
    Next(0xed22_0464, 0x2776_19f6, Next(0x3c2d_eeab, 0x1ecd_13aa, Next(0x2234_7ead, 0x51d8_48c6,
    Next(0xfe4e_5eef, 0x2705_d066, Next(0x663e_4305, 0x2e4c_ed90, Next(0x3b2f_c430, 0x584c_ddcb,
    Next(0x719d_bd55, 0x2ce4_2a37, End))))))))))

  lemma Mac60()
    ensures Leads(MAC_50, 50, MAC_TO_60, MAC_60, 60)
  {
  }

  const MAC_TO_70 :=
    Next(0x323e_de8d, 0xc53c_d475, Next(0xf194_86dc, 0x78e9_8c3e, Next(0x88c8_c156, 0xef2b_ccf2,
    Next(0xcf69_b90c, 0xceff_9378, Next(0xa033_37af, 0x451b_7a45, Next(0x76d5_407b, 0xfc36_a85f,
    Next(0x7cb9_c987, 0x59be_f127, Next(0xe813_645a, 0xf390_29d2, Next(0x9cac_6adb, 0xe98a_6ae6,
    Next(0x59fb_4b4f, 0xaff2_5852, End))))))))))

  lemma Mac70()
    ensures Leads(MAC_60, 60, MAC_TO_70, MAC_70, 70)
  {
  }

  const MAC_TO_80 :=
    Next(0xffd5_5135, 0x4ae6_4dd8, Next(0xfae8_2cab, 0xb1c2_b990, Next(0xd6f3_9a21, 0x2b40_5f75,
    Next(0x11b1_b88b, 0x68f0_4441, Next(0x8722_491c, 0xea18_8212, Next(0xf63c_b913, 0x19bb_a15d,
    Next(0x8ce3_85a9, 0x56da_6c41, Next(0x6912_2f43, 0xe7f9_8a0d, Next(0xf0e5_1f01, 0xf2da_b465,
    Next(0xcf74_a840, 0xaba3_dded, End))))))))))

  lemma Mac80()
    ensures Leads(MAC_70, 70, MAC_TO_80, MAC_80, 80)
  {
  }

  lemma MacCompresses(block: seq<Octet>)
    requires Holds(block, MAC_0.x)
    ensures Compress(MAC_0.v, block)
         == State(0xeffc_df6a, 0xe5eb_2fa2, 0xd274_16d5, 0xf184_df9c, 0x259a_7c79)
  {
    hide Holds, Reaches, Leads, Compress;
    FirstStage(block, MAC_0.v, MAC_0.x);
    Mac10();
    FollowTrail(block, MAC_0.v, 0, MAC_0, MAC_TO_10, MAC_10, 10);
    Mac20();
    FollowTrail(block, MAC_0.v, 10, MAC_10, MAC_TO_20, MAC_20, 20);
    Mac30();
    FollowTrail(block, MAC_0.v, 20, MAC_20, MAC_TO_30, MAC_30, 30);
    Mac40();
    FollowTrail(block, MAC_0.v, 30, MAC_30, MAC_TO_40, MAC_40, 40);
    Mac50();
    FollowTrail(block, MAC_0.v, 40, MAC_40, MAC_TO_50, MAC_50, 50);
    Mac60();
    FollowTrail(block, MAC_0.v, 50, MAC_50, MAC_TO_60, MAC_60, 60);
    Mac70();
    FollowTrail(block, MAC_0.v, 60, MAC_60, MAC_TO_70, MAC_70, 70);
    Mac80();
    FollowTrail(block, MAC_0.v, 70, MAC_70, MAC_TO_80, MAC_80, 80);
    LastStage(block, MAC_0.v, MAC_80);
    assert Add(MAC_0.v, MAC_80.v) == State(0xeffc_df6a, 0xe5eb_2fa2, 0xd274_16d5, 0xf184_df9c, 0x259a_7c79);
  }
}
