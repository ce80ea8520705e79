/** Halves of six bits: round tables under which a walk from (4, 5) spends its first 1000 steps on the last
    1000 values of the domain, each of them once. */
module SixBitTour {
  // ---- the round function, on bits ---------------------------------------------------------------

  /** Entry i of a line of sixteen, the first one highest. */
  function Pick(line: bv128, i: bv12): bv12 {
    ((line >> (8 * (15 - (i & 15)) as bv128)) & 63) as bv12
  }

  function F0(x: bv12): bv12 {
    Pick(
      if x < 16 then 0x31_31_30_30_30_30_30_30_30_30_30_30_30_30_30_30
      else if x < 32 then 0x30_30_30_30_30_30_30_30_38_3e_37_38_3b_34_36_38
      else if x < 48 then 0x2e_24_2c_27_23_24_27_22_2d_25_24_28_21_24_26_2d
      else 0x1a_1e_17_1e_1a_1f_14_13_14_1e_10_1c_1b_19_11_05,
      x)
  }

  function F1(x: bv12): bv12 {
    Pick(
      if x < 16 then 0x00_01_14_03_03_0a_11_02_0c_0d_01_0b_0b_15_1f_16
      else if x < 32 then 0x0c_02_0e_0a_04_02_0a_0c_07_0a_06_05_06_03_05_00
      else if x < 48 then 0x00_00_00_00_00_00_00_00_00_00_00_00_00_00_00_00
      else 0x00_00_00_00_3a_00_00_00_00_00_00_00_00_00_00_00,
      x)
  }

  function F2(x: bv12): bv12 {
    Pick(
      if x < 16 then 0x31_31_30_30_30_30_30_30_30_30_30_30_30_30_30_30
      else if x < 32 then 0x30_30_30_30_30_30_30_30_3c_3a_3a_3d_39_32_38_30
      else if x < 48 then 0x2b_2d_28_2f_21_25_23_25_27_2d_21_24_23_22_24_23
      else 0x1d_1a_11_1a_11_1e_17_1b_10_1a_1b_10_16_18_12_08,
      x)
  }

  function F3(x: bv12): bv12 {
    Pick(
      if x < 16 then 0x00_00_00_00_00_00_00_00_00_00_00_00_00_00_00_00
      else if x < 32 then 0x00_00_00_00_00_00_00_00_00_00_00_00_00_00_00_00
      else if x < 48 then 0x00_00_00_00_00_00_00_00_00_00_00_00_00_00_00_00
      else 0x00_25_27_2e_21_37_2f_22_28_3a_37_22_31_30_35_2c,
      x)
  }

  /** One step of the walk, on a place of six bits for the row and six for the column. */
  function Leap(p: bv12): bv12 {
    var r := p & 63;
    var x1 := (p >> 6) ^ F0(r);
    var x2 := r ^ F1(x1);
    var x3 := x1 ^ F2(x2);
    (x3 << 6) | (x2 ^ F3(x3))
  }

  // ---- the tour ------------------------------------------------------------------------------------

  /** A step to one of the last 1000 values. */
  predicate Hop(p: bv12, q: bv12) {
    Leap(p) == q && q >= 3096
  }

  predicate Path(t: seq<bv12>) {
    forall i :: 0 <= i < |t| - 1 ==> Hop(t[i], t[i + 1])
  }

  /** n such steps from p. */
  predicate Tour(t: seq<bv12>, p: bv12, n: nat) {
    |t| == n + 1 && t[0] == p && Path(t)
  }

  /** Ten steps before a tour. */
  lemma Extend(s: seq<bv12>, rest: seq<bv12>, n: nat) returns (t: seq<bv12>)
    requires |s| == 11 && Path(s) && Tour(rest, s[10], n)
    ensures Tour(t, s[0], n + 10)
  {
    t := s + rest[1..];
    forall i | 0 <= i < |t| - 1 ensures Hop(t[i], t[i + 1]) {
      if i < 10 {
        assert Hop(s[i], s[i + 1]);
      } else {
        assert Hop(rest[i - 10], rest[i - 9]);
      }
    }
  }

  // The tour in legs of ten steps, each leg followed by all those after it.

  lemma Leg00() returns (t: seq<bv12>)
    ensures Tour(t, 261, 1000)
  {
    t := Leg01();
    t := Extend([261, 3854, 3892, 3542, 3574, 3351, 3381, 3394, 3455, 3607, 3436], t, 990);
  }

  lemma Leg01() returns (t: seq<bv12>)
    ensures Tour(t, 3436, 990)
  {
    t := Leg02();
    t := Extend([3436, 3270, 3307, 4034, 4088, 3802, 3872, 3457, 3553, 3529, 3561], t, 980);
  }

  lemma Leg02() returns (t: seq<bv12>)
    ensures Tour(t, 3561, 980)
  {
    t := Leg03();
    t := Extend([3561, 3525, 3557, 3119, 3993, 3758, 3786, 3766, 3660, 3625, 3867], t, 970);
  }

  lemma Leg03() returns (t: seq<bv12>)
    ensures Tour(t, 3867, 970)
  {
    t := Leg04();
    t := Extend([3867, 3632, 4060, 3390, 3548, 3878, 3330, 3446, 3481, 3645, 3655], t, 960);
  }

  lemma Leg04() returns (t: seq<bv12>)
    ensures Tour(t, 3655, 960)
  {
    t := Leg05();
    t := Extend([3655, 3696, 3973, 3387, 3603, 3639, 3127, 3615, 3103, 3643, 3354], t, 950);
  }

  lemma Leg05() returns (t: seq<bv12>)
    ensures Tour(t, 3354, 950)
  {
    t := Leg06();
    t := Extend([3354, 3683, 3926, 3955, 3657, 3710, 3721, 3775, 3549, 3836, 3475], t, 940);
  }

  lemma Leg06() returns (t: seq<bv12>)
    ensures Tour(t, 3475, 940)
  {
    t := Leg07();
    t := Extend([3475, 3501, 3923, 3958, 3971, 3582, 3359, 3877, 3106, 3924, 3888], t, 930);
  }

  lemma Leg07() returns (t: seq<bv12>)
    ensures Tour(t, 3888, 930)
  {
    t := Leg08();
    t := Extend([3888, 3794, 3196, 3853, 3895, 3350, 3380, 4056, 3946, 3207, 3252], t, 920);
  }

  lemma Leg08() returns (t: seq<bv12>)
    ensures Tour(t, 3252, 920)
  {
    t := Leg09();
    t := Extend([3252, 3662, 3705, 3913, 3389, 3402, 3361, 3210, 3753, 3214, 3634], t, 910);
  }

  lemma Leg09() returns (t: seq<bv12>)
    ensures Tour(t, 3634, 910)
  {
    t := Leg10();
    t := Extend([3634, 3975, 3263, 4051, 4073, 3669, 3439, 4036, 4094, 3855, 3893], t, 900);
  }

  lemma Leg10() returns (t: seq<bv12>)
    ensures Tour(t, 3893, 900)
  {
    t := Leg11();
    t := Extend([3893, 3909, 3936, 3213, 3633, 3840, 3941, 3736, 3243, 3589, 3617], t, 890);
  }

  lemma Leg11() returns (t: seq<bv12>)
    ensures Tour(t, 3617, 890)
  {
    t := Leg12();
    t := Extend([3617, 3677, 3960, 3650, 3701, 3613, 3879, 3469, 4080, 3608, 3881], t, 880);
  }

  lemma Leg12() returns (t: seq<bv12>)
    ensures Tour(t, 3881, 880)
  {
    t := Leg13();
    t := Extend([3881, 3468, 3388, 3654, 3697, 3905, 3899, 3131, 3850, 3953, 3659], t, 870);
  }

  lemma Leg13() returns (t: seq<bv12>)
    ensures Tour(t, 3659, 870)
  {
    t := Leg14();
    t := Extend([3659, 3708, 3357, 3258, 3648, 3620, 3470, 3504, 3157, 3185, 3398], t, 860);
  }

  lemma Leg14() returns (t: seq<bv12>)
    ensures Tour(t, 3398, 860)
  {
    t := Leg15();
    t := Extend([3398, 3451, 3649, 3621, 3277, 3296, 3204, 3255, 3712, 3817, 3932], t, 850);
  }

  lemma Leg15() returns (t: seq<bv12>)
    ensures Tour(t, 3932, 850)
  {
    t := Leg16();
    t := Extend([3932, 3490, 3782, 3823, 3275, 3302, 3859, 3096, 3644, 3403, 3360], t, 840);
  }

  lemma Leg16() returns (t: seq<bv12>)
    ensures Tour(t, 3360, 840)
  {
    t := Leg17();
    t := Extend([3360, 3676, 3247, 3870, 3752, 3467, 3883, 3533, 3565, 3464, 3880], t, 830);
  }

  lemma Leg17() returns (t: seq<bv12>)
    ensures Tour(t, 3880, 830)
  {
    t := Leg18();
    t := Extend([3880, 3114, 3118, 3526, 3558, 3151, 3179, 3328, 3453, 3356, 4070], t, 820);
  }

  lemma Leg18() returns (t: seq<bv12>)
    ensures Tour(t, 4070, 820)
  {
    t := Leg19();
    t := Extend([4070, 3414, 3885, 3664, 3839, 3472, 3555, 3265, 3250, 3347, 3377], t, 810);
  }

  lemma Leg19() returns (t: seq<bv12>)
    ensures Tour(t, 3377, 810)
  {
    t := Leg20();
    t := Extend([3377, 3121, 3344, 3378, 3221, 3311, 4038, 4092, 3227, 3098, 3834], t, 800);
  }

  lemma Leg20() returns (t: seq<bv12>)
    ensures Tour(t, 3834, 800)
  {
    t := Leg21();
    t := Extend([3834, 3130, 3800, 4014, 3422, 3192, 3407, 3442, 3292, 3640, 3849], t, 790);
  }

  lemma Leg21() returns (t: seq<bv12>)
    ensures Tour(t, 3849, 790)
  {
    t := Leg22();
    t := Extend([3849, 3891, 3611, 3947, 3585, 3702, 3713, 3816, 3991, 4029, 4049], t, 780);
  }

  lemma Leg22() returns (t: seq<bv12>)
    ensures Tour(t, 4049, 780)
  {
    t := Leg23();
    t := Extend([4049, 4075, 3200, 3309, 3734, 3744, 3411, 4085, 3968, 4090, 3355], t, 770);
  }

  lemma Leg23() returns (t: seq<bv12>)
    ensures Tour(t, 3355, 770)
  {
    t := Leg24();
    t := Extend([3355, 3873, 3780, 3821, 3933, 3690, 3113, 3150, 3178, 3215, 4087], t, 760);
  }

  lemma Leg24() returns (t: seq<bv12>)
    ensures Tour(t, 4087, 760)
  {
    t := Leg25();
    t := Extend([4087, 3541, 3573, 3482, 3882, 3738, 3967, 3135, 3919, 3576, 3286], t, 750);
  }

  lemma Leg25() returns (t: seq<bv12>)
    ensures Tour(t, 3286, 750)
  {
    t := Leg26();
    t := Extend([3286, 3323, 4055, 4020, 3395, 3454, 3473, 3554, 3986, 4024, 3727], t, 740);
  }

  lemma Leg26() returns (t: seq<bv12>)
    ensures Tour(t, 3727, 740)
  {
    t := Leg27();
    t := Extend([3727, 3769, 3980, 4006, 3739, 3240, 3584, 3703, 3154, 3190, 3217], t, 730);
  }

  lemma Leg27() returns (t: seq<bv12>)
    ensures Tour(t, 3217, 730)
  {
    t := Leg28();
    t := Extend([3217, 3234, 3781, 3820, 3784, 3809, 3206, 3253, 3291, 3826, 3906], t, 720);
  }

  lemma Leg28() returns (t: seq<bv12>)
    ensures Tour(t, 3906, 720)
  {
    t := Leg29();
    t := Extend([3906, 3943, 3728, 3750, 3597, 3707, 3404, 3441, 3156, 3184, 3487], t, 710);
  }

  lemma Leg29() returns (t: seq<bv12>)
    ensures Tour(t, 3487, 710)
  {
    t := Leg30();
    t := Extend([3487, 4076, 3271, 3306, 3335, 3365, 3929, 3680, 3341, 3375, 3860], t, 700);
  }

  lemma Leg30() returns (t: seq<bv12>)
    ensures Tour(t, 3860, 700)
  {
    t := Leg31();
    t := Extend([3860, 3886, 3928, 3429, 3334, 3364, 3112, 3665, 3100, 3829, 3714], t, 690);
  }

  lemma Leg31() returns (t: seq<bv12>)
    ensures Tour(t, 3714, 690)
  {
    t := Leg32();
    t := Extend([3714, 3764, 3153, 3189, 3125, 3152, 3188, 3715, 3765, 3799, 3259], t, 680);
  }

  lemma Leg32() returns (t: seq<bv12>)
    ensures Tour(t, 3259, 680)
  {
    t := Leg33();
    t := Extend([3259, 3982, 4004, 3599, 3627, 3408, 4086, 3847, 3901, 3917, 3197], t, 670);
  }

  lemma Leg33() returns (t: seq<bv12>)
    ensures Tour(t, 3197, 670)
  {
    t := Leg34();
    t := Extend([3197, 3133, 3160, 3695, 3115, 3790, 3815, 3791, 3814, 3522, 3503], t, 660);
  }

  lemma Leg34() returns (t: seq<bv12>)
    ensures Tour(t, 3503, 660)
  {
    t := Leg35();
    t := Extend([3503, 3741, 4023, 3480, 4018, 3610, 4064, 3672, 3835, 3545, 3694], t, 650);
  }

  lemma Leg35() returns (t: seq<bv12>)
    ensures Tour(t, 3694, 650)
  {
    t := Leg36();
    t := Extend([3694, 3788, 3813, 3730, 3748, 3934, 3831, 3289, 3964, 3132, 3916], t, 640);
  }

  lemma Leg36() returns (t: seq<bv12>)
    ensures Tour(t, 3916, 640)
  {
    t := Leg37();
    t := Extend([3916, 3579, 3801, 3428, 3209, 3101, 3887, 3267, 3239, 3338, 3368], t, 630);
  }

  lemma Leg37() returns (t: seq<bv12>)
    ensures Tour(t, 3368, 630)
  {
    t := Leg38();
    t := Extend([3368, 3143, 3171, 3787, 3767, 3216, 3235, 3593, 3629, 3587, 3623], t, 620);
  }

  lemma Leg38() returns (t: seq<bv12>)
    ensures Tour(t, 3623, 620)
  {
    t := Leg39();
    t := Extend([3623, 3523, 3502, 3594, 3630, 3740, 3315, 3537, 3569, 3295, 3830], t, 610);
  }

  lemma Leg39() returns (t: seq<bv12>)
    ensures Tour(t, 3830, 610)
  {
    t := Leg40();
    t := Extend([3830, 3614, 4077, 3865, 3242, 3920, 3957, 3844, 3902, 4050, 4072], t, 600);
  }

  lemma Leg40() returns (t: seq<bv12>)
    ensures Tour(t, 4072, 600)
  {
    t := Leg41();
    t := Extend([4072, 3139, 3175, 3144, 3180, 3778, 3819, 3988, 4030, 3918, 3099], t, 590);
  }

  lemma Leg41() returns (t: seq<bv12>)
    ensures Tour(t, 3099, 590)
  {
    t := Leg42();
    t := Extend([3099, 3647, 3400, 3445, 3348, 3382, 3540, 3572, 3845, 3903, 3162], t, 580);
  }

  lemma Leg42() returns (t: seq<bv12>)
    ensures Tour(t, 3162, 580)
  {
    t := Leg43();
    t := Extend([3162, 3492, 3465, 3759, 3595, 3631, 3535, 3567, 3531, 3563, 3785], t, 570);
  }

  lemma Leg43() returns (t: seq<bv12>)
    ensures Tour(t, 3785, 570)
  {
    t := Leg44();
    t := Extend([3785, 3808, 3922, 3959, 3392, 3362, 3925, 3889, 3609, 3495, 3777], t, 560);
  }

  lemma Leg44() returns (t: seq<bv12>)
    ensures Tour(t, 3777, 560)
  {
    t := Leg45();
    t := Extend([3777, 3810, 3264, 3251, 3484, 3961, 3651, 3700, 3219, 3232, 4042], t, 550);
  }

  lemma Leg45() returns (t: seq<bv12>)
    ensures Tour(t, 4042, 550)
  {
    t := Leg46();
    t := Extend([4042, 3507, 3220, 3310, 3459, 3517, 3551, 4069, 3104, 3783, 3822], t, 540);
  }

  lemma Leg46() returns (t: seq<bv12>)
    ensures Tour(t, 3822, 540)
  {
    t := Leg47();
    t := Extend([3822, 4033, 3505, 3222, 3237, 3416, 3965, 3852, 3894, 4058, 3646], t, 530);
  }

  lemma Leg47() returns (t: seq<bv12>)
    ensures Tour(t, 3646, 530)
  {
    t := Leg48();
    t := Extend([3646, 3804, 3686, 3142, 3170, 3105, 3136, 3173, 3111, 4037, 4095], t, 520);
  }

  lemma Leg48() returns (t: seq<bv12>)
    ensures Tour(t, 4095, 520)
  {
    t := Leg49();
    t := Extend([4095, 3224, 3097, 4019, 3716, 3762, 3843, 3897, 3601, 3754, 3935], t, 510);
  }

  lemma Leg49() returns (t: seq<bv12>)
    ensures Tour(t, 3935, 510)
  {
    t := Leg50();
    t := Extend([3935, 3426, 3997, 3314, 3397, 3448, 3165, 3424, 3984, 4026, 3405], t, 500);
  }

  lemma Leg50() returns (t: seq<bv12>)
    ensures Tour(t, 3405, 500)
  {
    t := Leg51();
    t := Extend([3405, 3440, 3223, 3236, 3201, 3308, 3733, 3747, 3471, 4011, 3779], t, 490);
  }

  lemma Leg51() returns (t: seq<bv12>)
    ensures Tour(t, 3779, 490)
  {
    t := Leg52();
    t := Extend([3779, 3818, 3999, 3489, 3146, 3182, 4046, 3318, 3126, 3288, 3825], t, 480);
  }

  lemma Leg52() returns (t: seq<bv12>)
    ensures Tour(t, 3825, 480)
  {
    t := Leg53();
    t := Extend([3825, 4061, 3828, 3124, 3798, 3687, 3276, 3297, 3418, 3241, 3202], t, 470);
  }

  lemma Leg53() returns (t: seq<bv12>)
    ensures Tour(t, 3202, 470)
  {
    t := Leg54();
    t := Extend([3202, 3249, 3486, 3638, 3796, 3837, 3722, 3772, 3550, 3194, 3725], t, 460);
  }

  lemma Leg54() returns (t: seq<bv12>)
    ensures Tour(t, 3725, 460)
  {
    t := Leg55();
    t := Extend([3725, 3771, 3476, 3498, 3274, 3303, 3332, 3366, 3116, 3417, 3824], t, 450);
  }

  lemma Leg55() returns (t: seq<bv12>)
    ensures Tour(t, 3824, 450)
  {
    t := Leg56();
    t := Extend([3824, 3841, 3940, 3279, 3298, 3520, 3518, 3401, 3444, 3969, 4091], t, 440);
  }

  lemma Leg56() returns (t: seq<bv12>)
    ensures Tour(t, 4091, 440)
  {
    t := Leg57();
    t := Extend([4091, 3285, 3320, 3546, 3757, 3666, 3685, 3987, 4025, 3726, 3768], t, 430);
  }

  lemma Leg57() returns (t: seq<bv12>)
    ensures Tour(t, 3768, 430)
  {
    t := Leg58();
    t := Extend([3768, 3981, 4007, 3140, 3168, 3329, 3452, 3604, 3385, 3129, 3352], t, 420);
  }

  lemma Leg58() returns (t: seq<bv12>)
    ensures Tour(t, 3352, 420)
  {
    t := Leg59();
    t := Extend([3352, 3874, 3343, 3373, 3921, 3956, 3483, 4017, 3718, 3760, 3904], t, 410);
  }

  lemma Leg59() returns (t: seq<bv12>)
    ensures Tour(t, 3904, 410)
  {
    t := Leg60();
    t := Extend([3904, 3898, 3544, 4066, 3337, 3371, 3992, 3494, 3108, 3532, 3564], t, 400);
  }

  lemma Leg60() returns (t: seq<bv12>)
    ensures Tour(t, 3564, 400)
  {
    t := Leg61();
    t := Extend([3564, 3409, 3635, 3842, 3896, 3600, 3193, 3406, 3443, 3158, 3186], t, 390);
  }

  lemma Leg61() returns (t: seq<bv12>)
    ensures Tour(t, 3186, 390)
  {
    t := Leg62();
    t := Extend([3186, 3536, 3568, 3120, 3538, 3570, 3159, 3187, 3396, 3449, 3164], t, 380);
  }

  lemma Leg62() returns (t: seq<bv12>)
    ensures Tour(t, 3164, 380)
  {
    t := Leg63();
    t := Extend([3164, 3637, 3663, 3704, 3912, 4081, 3795, 3578, 3851, 3952, 3719], t, 370);
  }

  lemma Leg63() returns (t: seq<bv12>)
    ensures Tour(t, 3719, 370)
  {
    t := Leg64();
    t := Extend([3719, 3761, 3972, 3317, 3218, 3233, 3212, 4013, 3998, 3642, 3284], t, 360);
  }

  lemma Leg64() returns (t: seq<bv12>)
    ensures Tour(t, 3284, 360)
  {
    t := Leg65();
    t := Extend([3284, 3321, 3547, 4065, 3731, 3749, 3415, 3583, 3720, 3774, 3652], t, 350);
  }

  lemma Leg65() returns (t: seq<bv12>)
    ensures Tour(t, 3652, 350)
  {
    t := Leg66();
    t := Extend([3652, 3699, 3907, 3942, 3141, 3169, 3732, 3746, 3149, 3177, 3458], t, 340);
  }

  lemma Leg66() returns (t: seq<bv12>)
    ensures Tour(t, 3458, 340)
  {
    t := Leg67();
    t := Extend([3458, 3516, 3806, 3963, 3166, 4009, 3588, 3616, 3528, 3560, 3995], t, 330);
  }

  lemma Leg67() returns (t: seq<bv12>)
    ensures Tour(t, 3995, 330)
  {
    t := Leg68();
    t := Extend([3995, 3493, 3460, 3514, 3914, 3951, 4047, 3438, 3203, 3248, 3399], t, 320);
  }

  lemma Leg68() returns (t: seq<bv12>)
    ensures Tour(t, 3399, 320)
  {
    t := Leg69();
    t := Extend([3399, 3450, 3983, 4005, 3412, 3950, 4039, 4093, 3976, 4002, 3145], t, 310);
  }

  lemma Leg69() returns (t: seq<bv12>)
    ensures Tour(t, 3145, 310)
  {
    t := Leg70();
    t := Extend([3145, 3181, 3456, 3552, 3586, 3622, 3863, 3435, 3743, 3244, 3110], t, 300);
  }

  lemma Leg70() returns (t: seq<bv12>)
    ensures Tour(t, 3110, 300)
  {
    t := Leg71();
    t := Extend([3110, 3461, 3515, 3724, 3770, 3167, 3688, 3534, 3566, 3211, 3256], t, 290);
  }

  lemma Leg71() returns (t: seq<bv12>)
    ensures Tour(t, 3256, 290)
  {
    t := Leg72();
    t := Extend([3256, 3479, 3497, 3858, 3510, 3393, 3363, 3996, 3425, 3990, 4028], t, 280);
  }

  lemma Leg72() returns (t: seq<bv12>)
    ensures Tour(t, 4028, 280)
  {
    t := Leg73();
    t := Extend([4028, 3282, 3327, 3978, 4000, 3266, 3238, 3333, 3367, 3340, 3374], t, 270);
  }

  lemma Leg73() returns (t: seq<bv12>)
    ensures Tour(t, 3374, 270)
  {
    t := Leg74();
    t := Extend([3374, 3674, 4016, 3658, 3709, 3605, 3262, 3163, 3692, 3866, 3827], t, 260);
  }

  lemma Leg74() returns (t: seq<bv12>)
    ensures Tour(t, 3827, 260)
  {
    t := Leg75();
    t := Extend([3827, 4063, 3434, 3463, 3513, 3230, 3506, 3122, 3485, 3246, 3421], t, 250);
  }

  lemma Leg75() returns (t: seq<bv12>)
    ensures Tour(t, 3421, 250)
  {
    t := Leg76();
    t := Extend([3421, 3636, 3290, 4012, 3869, 3641, 3848, 3890, 3717, 3763, 3974], t, 240);
  }

  lemma Leg76() returns (t: seq<bv12>)
    ensures Tour(t, 3974, 240)
  {
    t := Leg77();
    t := Extend([3974, 3384, 3128, 3353, 3511, 3970, 3884, 3994, 3693, 3668, 3319], t, 230);
  }

  lemma Leg77() returns (t: seq<bv12>)
    ensures Tour(t, 3319, 230)
  {
    t := Leg78();
    t := Extend([3319, 3797, 3312, 3345, 3379, 3123, 3346, 3376, 3294, 3427, 3117], t, 220);
  }

  lemma Leg78() returns (t: seq<bv12>)
    ensures Tour(t, 3117, 220)
  {
    t := Leg79();
    t := Extend([3117, 3667, 3195, 3915, 3433, 3410, 3682, 3989, 4031, 3281, 3324], t, 210);
  }

  lemma Leg79() returns (t: seq<bv12>)
    ensures Tour(t, 3324, 210)
  {
    t := Leg80();
    t := Extend([3324, 3977, 4003, 3336, 3370, 3272, 3301, 3742, 3876, 3985, 4027], t, 200);
  }

  lemma Leg80() returns (t: seq<bv12>)
    ensures Tour(t, 4027, 200)
  {
    t := Leg81();
    t := Extend([4027, 3228, 3691, 3864, 3681, 3413, 3432, 3789, 3812, 3521, 3519], t, 190);
  }

  lemma Leg81() returns (t: seq<bv12>)
    ensures Tour(t, 3519, 190)
  {
    t := Leg82();
    t := Extend([3519, 3805, 4071, 3861, 3391, 3653, 3698, 4062, 3689, 4035, 4089], t, 180);
  }

  lemma Leg82() returns (t: seq<bv12>)
    ensures Tour(t, 4089, 180)
  {
    t := Leg83();
    t := Extend([4089, 3803, 4084, 3349, 3383, 3846, 3900, 3161, 4067, 3678, 4068], t, 170);
  }

  lemma Leg83() returns (t: seq<bv12>)
    ensures Tour(t, 4068, 170)
  {
    t := Leg84();
    t := Extend([4068, 3331, 3447, 3911, 3938, 3735, 3745, 4040, 3580, 3723, 3773], t, 160);
  }

  lemma Leg84() returns (t: seq<bv12>)
    ensures Tour(t, 3773, 160)
  {
    t := Leg85();
    t := Extend([3773, 3807, 3755, 3527, 3559, 3109, 3675, 3832, 4052, 4078, 3596], t, 150);
  }

  lemma Leg85() returns (t: seq<bv12>)
    ensures Tour(t, 3596, 150)
  {
    t := Leg86();
    t := Extend([3596, 3706, 3229, 3491, 3856, 3198, 3225, 3875, 3598, 3626, 4032], t, 140);
  }

  lemma Leg86() returns (t: seq<bv12>)
    ensures Tour(t, 4032, 140)
  {
    t := Leg87();
    t := Extend([4032, 4010, 3670, 3386, 4054, 4021, 4057, 3944, 3137, 3172, 3268], t, 130);
  }

  lemma Leg87() returns (t: seq<bv12>)
    ensures Tour(t, 3268, 130)
  {
    t := Leg88();
    t := Extend([3268, 3305, 3673, 3756, 3462, 3512, 3231, 3257, 3478, 3496, 3671], t, 120);
  }

  lemma Leg88() returns (t: seq<bv12>)
    ensures Tour(t, 3671, 120)
  {
    t := Leg89();
    t := Extend([3671, 3316, 3612, 3313, 3539, 3571, 3293, 3581, 3474, 3500, 3857], t, 110);
  }

  lemma Leg89() returns (t: seq<bv12>)
    ensures Tour(t, 3857, 110)
  {
    t := Leg90();
    t := Extend([3857, 3509, 3543, 3575, 4059, 3945, 3871, 3948, 3930, 3577, 3287], t, 100);
  }

  lemma Leg90() returns (t: seq<bv12>)
    ensures Tour(t, 3287, 100)
  {
    t := Leg91();
    t := Extend([3287, 3322, 3602, 3102, 3488, 3927, 3954, 3792, 3508, 3908, 3937], t, 90);
  }

  lemma Leg91() returns (t: seq<bv12>)
    ensures Tour(t, 3937, 90)
  {
    t := Leg92();
    t := Extend([3937, 3931, 3430, 3423, 3962, 3477, 3499, 3737, 4015, 3466, 3833], t, 80);
  }

  lemma Leg92() returns (t: seq<bv12>)
    ensures Tour(t, 3833, 80)
  {
    t := Leg93();
    t := Extend([3833, 4053, 4079, 4045, 3260, 4048, 4074, 3591, 3619, 3107, 3342], t, 70);
  }

  lemma Leg93() returns (t: seq<bv12>)
    ensures Tour(t, 3342, 70)
  {
    t := Leg94();
    t := Extend([3342, 3372, 3147, 3183, 3148, 3176, 3590, 3618, 3524, 3556, 4044], t, 60);
  }

  lemma Leg94() returns (t: seq<bv12>)
    ensures Tour(t, 4044, 60)
  {
    t := Leg95();
    t := Extend([4044, 3437, 3208, 3838, 3606, 3261, 3283, 3326, 3134, 3280, 3325], t, 50);
  }

  lemma Leg95() returns (t: seq<bv12>)
    ensures Tour(t, 3325, 50)
  {
    t := Leg96();
    t := Extend([3325, 3226, 3431, 3269, 3304, 3868, 4082, 3656, 3711, 3358, 3245], t, 40);
  }

  lemma Leg96() returns (t: seq<bv12>)
    ensures Tour(t, 3245, 40)
  {
    t := Leg97();
    t := Extend([3245, 3273, 3300, 3530, 3562, 3592, 3628, 3729, 3751, 3278, 3299], t, 30);
  }

  lemma Leg97() returns (t: seq<bv12>)
    ensures Tour(t, 3299, 30)
  {
    t := Leg98();
    t := Extend([3299, 3138, 3174, 3419, 3966, 3979, 4001, 4043, 3949, 3862, 4008], t, 20);
  }

  lemma Leg98() returns (t: seq<bv12>)
    ensures Tour(t, 4008, 20)
  {
    t := Leg99();
    t := Extend([4008, 3776, 3811, 3679, 3684, 3205, 3254, 3155, 3191, 3661, 3624], t, 10);
  }

  lemma Leg99() returns (t: seq<bv12>)
    ensures Tour(t, 3624, 10)
  {
    t := [3624, 3339, 3369, 3420, 4022, 3910, 3939, 4041, 4083, 3793, 3199];
  }
}
