/** That 2^255 - 19 is prime, from a chain of primes each of which is the order of an element modulo
    the one before.  Each element is raised to its order four bits at a time; the residues on the way
    are listed. */
module FieldPrime {
  import opened Fermat
  import opened Primality
  import Limbs

  lemma PrimeU()
    ensures IsPrime(0x3df)
  {
    OneMore(0x3df, 2); OneMore(0x3df, 3); OneMore(0x3df, 4); OneMore(0x3df, 5); OneMore(0x3df, 6);
    OneMore(0x3df, 7); OneMore(0x3df, 8); OneMore(0x3df, 9); OneMore(0x3df, 10); OneMore(0x3df, 11);
    OneMore(0x3df, 12); OneMore(0x3df, 13); OneMore(0x3df, 14); OneMore(0x3df, 15); OneMore(0x3df, 16);
    OneMore(0x3df, 17); OneMore(0x3df, 18); OneMore(0x3df, 19); OneMore(0x3df, 20); OneMore(0x3df, 21);
    OneMore(0x3df, 22); OneMore(0x3df, 23); OneMore(0x3df, 24); OneMore(0x3df, 25); OneMore(0x3df, 26);
    OneMore(0x3df, 27); OneMore(0x3df, 28); OneMore(0x3df, 29); OneMore(0x3df, 30); OneMore(0x3df, 31);
    PrimeByTrial(0x3df, 32);
  }

  // T, by an element of order U.

  lemma PowerT0(at: Powers)
    requires Names(at, 0x82d4b5, 0x346cd1)
    ensures at(0x3df, 1)
  {
    AtZero(at, 0x82d4b5, 0x346cd1);
    var e: nat := 0;
    e := Four(at, 0x82d4b5, 0x346cd1, e, false, false, true, true,
              1, 1, 1, 0x346cd1, 0x730281);
    e := Four(at, 0x82d4b5, 0x346cd1, e, true, true, false, true,
              0x730281, 0x7c5d46, 0x67873c, 0x525f9a, 0x159ed7);
    e := Four(at, 0x82d4b5, 0x346cd1, e, true, true, true, true,
              0x159ed7, 0x62fece, 0x4cd86a, 0x7520bc, 1);
  }

  lemma PrimeT()
    ensures IsPrime(0x82d4b5)
  {
    PrimeU();
    var at := NameFor(0x82d4b5, 0x346cd1);
    PowerT0(at);
    PrimeBy(at, 0x82d4b5, 0x3df, 0x346cd1, 0xf79eb, 0x21cc);
  }

  // S, by an element of order T.

  lemma PowerS0(at: Powers)
    requires Names(at, 0x6d1cafa129d0b, 0x3c3ffdef7c0b1)
    ensures at(0x82d4b5, 1)
  {
    AtZero(at, 0x6d1cafa129d0b, 0x3c3ffdef7c0b1);
    var e: nat := 0;
    e := Four(at, 0x6d1cafa129d0b, 0x3c3ffdef7c0b1, e, true, false, false, false,
              1, 0x3c3ffdef7c0b1, 0x158280d1c7fe9, 0x8343f3dc7de5, 0xa1a81c865ef3);
    e := Four(at, 0x6d1cafa129d0b, 0x3c3ffdef7c0b1, e, false, false, true, false,
              0xa1a81c865ef3, 0x392a5595195eb, 0x612344a925350, 0x2c250f4ecd406, 0x626b6bf964a0b);
    e := Four(at, 0x6d1cafa129d0b, 0x3c3ffdef7c0b1, e, true, true, false, true,
              0x626b6bf964a0b, 0x6bb9918006e92, 0x1af1b0376649d, 0x32382c25445fa, 0x67339e4b07ecd);
    e := Four(at, 0x6d1cafa129d0b, 0x3c3ffdef7c0b1, e, false, true, false, false,
              0x67339e4b07ecd, 0x293c7db21880d, 0x3e3bdbc06dca4, 0x6bd0e231a5cd1, 0x5319205ebe88c);
    e := Four(at, 0x6d1cafa129d0b, 0x3c3ffdef7c0b1, e, true, false, true, true,
              0x5319205ebe88c, 0x65459d5b3f521, 0x2741e82e93a2c, 0x1efe5f3dc2faa, 0x11a52cb514f6b);
    e := Four(at, 0x6d1cafa129d0b, 0x3c3ffdef7c0b1, e, false, true, false, true,
              0x11a52cb514f6b, 0x29c454b86c6a2, 0x5967ff7111a20, 0x3691e18f9008b, 1);
  }

  lemma PrimeS()
    ensures IsPrime(0x6d1cafa129d0b)
  {
    PrimeT();
    var at := NameFor(0x6d1cafa129d0b, 0x3c3ffdef7c0b1);
    PowerS0(at);
    PrimeBy(at, 0x6d1cafa129d0b, 0x82d4b5, 0x3c3ffdef7c0b1, 0x495bef080ea35, 0xd580922);
  }

  // R, by an element of order S.

  lemma PowerR0(at: Powers)
    requires Names(at, 0xe87c2a477b815a1793787395b23e1, 0xaedd80ab27e8de3ca5f2fb22d5403)
    ensures at(0x6d1cafa1, 0x523c96f162978ca422a4dfdd98edb)
  {
    AtZero(at, 0xe87c2a477b815a1793787395b23e1, 0xaedd80ab27e8de3ca5f2fb22d5403);
    var e: nat := 0;
    e := Four(at, 0xe87c2a477b815a1793787395b23e1, 0xaedd80ab27e8de3ca5f2fb22d5403, e, false, true, true, false,
              1, 1, 0xaedd80ab27e8de3ca5f2fb22d5403, 0x22f28959a6094f3ec9a3cec3753fd,
              0x7b07abf2a0bdfa0b9dd400295ab);
    e := Four(at, 0xe87c2a477b815a1793787395b23e1, 0xaedd80ab27e8de3ca5f2fb22d5403, e, true, true, false, true,
              0x7b07abf2a0bdfa0b9dd400295ab, 0x17406961c43ff0fec5a4ebd17405f, 0x86f41bda7c9b2a0ea67579a5971cd,
              0x9d0091ad15cf6e36495814c254374, 0x53d31a0a415a647d81ba17c64cb9c);
    e := Four(at, 0xe87c2a477b815a1793787395b23e1, 0xaedd80ab27e8de3ca5f2fb22d5403, e, false, false, false, true,
              0x53d31a0a415a647d81ba17c64cb9c, 0x2b2ff71ac81a474c712d0b8b1f329, 0x71f9ced5e7ced7df9a9a7c51912e1,
              0xdd81996ef5ee110e553634ae0f1d1, 0x8a4ce1ca61270808e9f80c903fa92);
    e := Four(at, 0xe87c2a477b815a1793787395b23e1, 0xaedd80ab27e8de3ca5f2fb22d5403, e, true, true, false, false,
              0x8a4ce1ca61270808e9f80c903fa92, 0x2f3ed96edb813d61b2da8bf51ce29, 0xb93588d98b41cdea0a321d17728,
              0xdd0d55144f23d57128e602b6b725f, 0x311c7da706526c7b84452ad03a077);
    e := Four(at, 0xe87c2a477b815a1793787395b23e1, 0xaedd80ab27e8de3ca5f2fb22d5403, e, true, false, true, false,
              0x311c7da706526c7b84452ad03a077, 0x176fb2166802fc583d656ce58fda1, 0xe49cda690b91541a0b4bdedd2400b,
              0x14051b811dcd6cc4d88bd19834f2e, 0x832c61ba16d59cb5e168e09fefff3);
    e := Four(at, 0xe87c2a477b815a1793787395b23e1, 0xaedd80ab27e8de3ca5f2fb22d5403, e, true, true, true, true,
              0x832c61ba16d59cb5e168e09fefff3, 0x195189d68cb9280e581c0ea0d2fe2, 0x3153b661018255cbd0a0f75054ca4,
              0x1d9d5ac3cfc7c71eb392e60e345b8, 0xdef4b93c246326ad733ff245e8807);
    e := Four(at, 0xe87c2a477b815a1793787395b23e1, 0xaedd80ab27e8de3ca5f2fb22d5403, e, true, false, true, false,
              0xdef4b93c246326ad733ff245e8807, 0x2fa31f134f23bd7fd36f5d18337bc, 0x1a044229e28f73659f53fba8831ae,
              0x21ff9c4e06fc08717d7447d7a9696, 0x2b80db59644f026a0903288aaaa5d);
    e := Four(at, 0xe87c2a477b815a1793787395b23e1, 0xaedd80ab27e8de3ca5f2fb22d5403, e, false, false, false, true,
              0x2b80db59644f026a0903288aaaa5d, 0xa3f6d8bae90507075a3515b89fd58, 0x8abf84e490585b935976b1bdd486b,
              0x93b03ea99805f634625c94e0aedf8, 0x523c96f162978ca422a4dfdd98edb);
  }

  lemma PowerR1(at: Powers)
    requires Names(at, 0xe87c2a477b815a1793787395b23e1, 0xaedd80ab27e8de3ca5f2fb22d5403)
    ensures at(0x6d1cafa129d0b, 1)
  {
    PowerR0(at);
    var e: nat := 0x6d1cafa1;
    e := Four(at, 0xe87c2a477b815a1793787395b23e1, 0xaedd80ab27e8de3ca5f2fb22d5403, e, false, false, true, false,
              0x523c96f162978ca422a4dfdd98edb, 0x83433b15f03439cf39f87f61b2704, 0x74d5f338e0a6231fe90cf6f410723,
              0x25fa893e3cde365fed4f034118db6, 0x1acf64ac33b953f3a87c1cd463c50);
    e := Four(at, 0xe87c2a477b815a1793787395b23e1, 0xaedd80ab27e8de3ca5f2fb22d5403, e, true, false, false, true,
              0x1acf64ac33b953f3a87c1cd463c50, 0x8cda73d5157a5b35948e623134b41, 0xd2f25f4ad230f919bdeb95c0e36f4,
              0x4436bc1a94d40dbb06bbcfb1d8b38, 0x2b021a7ab552f243edc3ba9800c8e);
    e := Four(at, 0xe87c2a477b815a1793787395b23e1, 0xaedd80ab27e8de3ca5f2fb22d5403, e, true, true, false, true,
              0x2b021a7ab552f243edc3ba9800c8e, 0xc75cfb041436c33c739fc0605b903, 0x8b6152c1cfcd0923cce5add5d51c5,
              0x96b899fdc0647b954aaad72656e3d, 0xdd5967d7f15948d246efbdead218c);
    e := Four(at, 0xe87c2a477b815a1793787395b23e1, 0xaedd80ab27e8de3ca5f2fb22d5403, e, false, false, false, false,
              0xdd5967d7f15948d246efbdead218c, 0x69d4d43d2894618c2459bec1393a5, 0x7ad56a78a8c4b8c1209fe3b3e6158,
              0x3560eb68b455391e24f403ac8f46a, 0x26780b9ac5112b06374380fca4b4c);
    e := Four(at, 0xe87c2a477b815a1793787395b23e1, 0xaedd80ab27e8de3ca5f2fb22d5403, e, true, false, true, true,
              0x26780b9ac5112b06374380fca4b4c, 0xa812cf0dbf2e7642952efba327e7a, 0x570414ecf62a60bea569123ff9dbd,
              0xa4f5edfceeba5f3a9bd38539b0d94, 1);
  }

  lemma PrimeR()
    ensures IsPrime(0xe87c2a477b815a1793787395b23e1)
  {
    PrimeS();
    var at := NameFor(0xe87c2a477b815a1793787395b23e1, 0xaedd80ab27e8de3ca5f2fb22d5403);
    PowerR1(at);
    PrimeBy(at, 0xe87c2a477b815a1793787395b23e1, 0x6d1cafa129d0b, 0xaedd80ab27e8de3ca5f2fb22d5403, 0xe5e342b4c0a3d507894bab5f20e8b, 0x2217588b6b4f717a0);
  }

  // Q, by an element of order R.

  lemma PowerQ0(at: Powers)
    requires Names(at, 0xabaf8c6b094fd0f32c2ccabab864dbecd99144679c1adf804898fb2042b, 0xa118eb0f9d8184bab59e8e45df736d65fba3c64f4aa855bc8921ac18308)
    ensures at(0xe87c2a47, 0x8c4e4b1bd51e029a05cebe12fcd639608ca9d69136c13fec807f0df59f1)
  {
    AtZero(at, 0xabaf8c6b094fd0f32c2ccabab864dbecd99144679c1adf804898fb2042b, 0xa118eb0f9d8184bab59e8e45df736d65fba3c64f4aa855bc8921ac18308);
    var e: nat := 0;
    e := Four(at, 0xabaf8c6b094fd0f32c2ccabab864dbecd99144679c1adf804898fb2042b, 0xa118eb0f9d8184bab59e8e45df736d65fba3c64f4aa855bc8921ac18308, e, true, true, true, false,
              1, 0xa118eb0f9d8184bab59e8e45df736d65fba3c64f4aa855bc8921ac18308,
              0x8b4cf1d206f83670a1bd65b3b5531c0696ae852450b960b7180d25e9d0e,
              0x1c285ecdff9df456e8a2d1eda35f795e719047659a5285709f272407023,
              0x58dc130308dd4efe1f821ac60fa137b9ef44bdb398e9534e07e281a56e);
    e := Four(at, 0xabaf8c6b094fd0f32c2ccabab864dbecd99144679c1adf804898fb2042b, 0xa118eb0f9d8184bab59e8e45df736d65fba3c64f4aa855bc8921ac18308, e, true, false, false, false,
              0x58dc130308dd4efe1f821ac60fa137b9ef44bdb398e9534e07e281a56e,
              0x655b44735bea9793d26cfbf9ca08b390404b9898b7cf1e07232912a8115,
              0x7d85cfde4f00836c342a258930be7dfa0b10a763f916e2724f0cfaab568,
              0x1a28daf693cccc624e0bed7ddb8357c1a09d9fbb2c782a4021cd0ebd287,
              0x96b3210909a8c8117c615e847ef91d9bb7579d4c7da760f5028d0d749ee);
    e := Four(at, 0xabaf8c6b094fd0f32c2ccabab864dbecd99144679c1adf804898fb2042b, 0xa118eb0f9d8184bab59e8e45df736d65fba3c64f4aa855bc8921ac18308, e, false, true, true, true,
              0x96b3210909a8c8117c615e847ef91d9bb7579d4c7da760f5028d0d749ee,
              0x2dbabdb7fd3ab0e5cff3421d4262010e8b6108db546c1226ba5df25b038,
              0x2639a6ecb2839b20f25da83ede3c574b0807b352e7cdd33d4a86415a61d,
              0x8c4d6986c02ced31ce7b901472c22d56dc72f9e4e6b86b514b041922c02,
              0x23d6a1da936a6f2e2c3d154bbd725a5227612211b8fad6a6ae7b8c04b12);
    e := Four(at, 0xabaf8c6b094fd0f32c2ccabab864dbecd99144679c1adf804898fb2042b, 0xa118eb0f9d8184bab59e8e45df736d65fba3c64f4aa855bc8921ac18308, e, true, true, false, false,
              0x23d6a1da936a6f2e2c3d154bbd725a5227612211b8fad6a6ae7b8c04b12,
              0x42febfad9ff7e99106a420f115b3593a12dd9d56589eb9a41d337a7d765,
              0x66e62422dac05613028954ef8af6a89794fe4cb8fc39a01a67918ac4463,
              0x894eb11f6f65cb412df97787a79fdecac2b4d5cdb7c3af60da3a9e4ec3a,
              0x73e2b308c4d77136eb35c70ef4781525bbb4035cd27c88fb02700bbe077);
    e := Four(at, 0xabaf8c6b094fd0f32c2ccabab864dbecd99144679c1adf804898fb2042b, 0xa118eb0f9d8184bab59e8e45df736d65fba3c64f4aa855bc8921ac18308, e, false, false, true, false,
              0x73e2b308c4d77136eb35c70ef4781525bbb4035cd27c88fb02700bbe077,
              0x574efbe0432d1bc1463bd79851e1159e6493f1f88ab6e3f87cc00b870f2,
              0xa48ce48fa3f1e6756db9b4c730858ecadac6628919b4ae5b86a2d798ccb,
              0x23f1ac0147de32b6d27b265ee0c64efc7feafb559ea73d02b864e47663d,
              0xa4221117ec614844a3207f77b9b3be05f68d922de37afd7a54e101a8de5);
    e := Four(at, 0xabaf8c6b094fd0f32c2ccabab864dbecd99144679c1adf804898fb2042b, 0xa118eb0f9d8184bab59e8e45df736d65fba3c64f4aa855bc8921ac18308, e, true, false, true, false,
              0xa4221117ec614844a3207f77b9b3be05f68d922de37afd7a54e101a8de5,
              0x8d71be0bb741e4d19d20f2a0efcabd38cb0e8c70cb88838738e8b98e6d,
              0x7e3eca5495a5e3c2212eb8688487e79bc6c042389f01a1b706748ef3332,
              0x63b8ebd93c11954871c32fc2e372d743a77edaff8020cfdc80700af7c9b,
              0x6997c13781fe17841280a22b659c00834a959d6138ec9d3f2821d9d2c64);
    e := Four(at, 0xabaf8c6b094fd0f32c2ccabab864dbecd99144679c1adf804898fb2042b, 0xa118eb0f9d8184bab59e8e45df736d65fba3c64f4aa855bc8921ac18308, e, false, true, false, false,
              0x6997c13781fe17841280a22b659c00834a959d6138ec9d3f2821d9d2c64,
              0x74c104ec735378a8d431c6416d23a65b4d32ba1fe7a5b66b328f7e86abb,
              0x45deae5d1733e9e844d8f1737a466b03c3269c73dc12c13607bd020f10c,
              0x6710d0b65bc78428d08d3841ce3ace388c1477d55df1ee64b52783b69fe,
              0x5109b0515e8fba2c205ecedd1416f736fecc816926b9a887bbbc62ff635);
    e := Four(at, 0xabaf8c6b094fd0f32c2ccabab864dbecd99144679c1adf804898fb2042b, 0xa118eb0f9d8184bab59e8e45df736d65fba3c64f4aa855bc8921ac18308, e, false, true, true, true,
              0x5109b0515e8fba2c205ecedd1416f736fecc816926b9a887bbbc62ff635,
              0x3ebd9d5d55ca7513761120e402f7b2b4d5939bad7c4b6e0a39953e4a3e9,
              0x3917f5d4e24b10f3b58aaacad3399baa5982d0d3819b4be1d9ed76dff91,
              0x4d92e60734b92151fa93fb30fcc01c2ec6c0908308f274a4f83c793714d,
              0x8c4e4b1bd51e029a05cebe12fcd639608ca9d69136c13fec807f0df59f1);
  }

  lemma PowerQ1(at: Powers)
    requires Names(at, 0xabaf8c6b094fd0f32c2ccabab864dbecd99144679c1adf804898fb2042b, 0xa118eb0f9d8184bab59e8e45df736d65fba3c64f4aa855bc8921ac18308)
    ensures at(0xe87c2a477b815a17, 0xe0b5ae692be86abe4f0763d240a8c16e14af973a0442bf342a9877f25f)
  {
    PowerQ0(at);
    var e: nat := 0xe87c2a47;
    e := Four(at, 0xabaf8c6b094fd0f32c2ccabab864dbecd99144679c1adf804898fb2042b, 0xa118eb0f9d8184bab59e8e45df736d65fba3c64f4aa855bc8921ac18308, e, false, true, true, true,
              0x8c4e4b1bd51e029a05cebe12fcd639608ca9d69136c13fec807f0df59f1,
              0x9a26dab0ae6058921ce8ffa267c0979fa078023d696f6e94053fe1c9183,
              0xa3dfd549c46392b28ec4e53be7d094e059fa1b1a6e42df45b515096160,
              0xa256c07ca7201adeaa71af560709965872f70b47bb573b9afc65c68e8f1,
              0xc21b19452b898884e91a01ccf71d26c0c00f96f6de89e8a751442eee1b);
    e := Four(at, 0xabaf8c6b094fd0f32c2ccabab864dbecd99144679c1adf804898fb2042b, 0xa118eb0f9d8184bab59e8e45df736d65fba3c64f4aa855bc8921ac18308, e, true, false, true, true,
              0xc21b19452b898884e91a01ccf71d26c0c00f96f6de89e8a751442eee1b,
              0x88399345eba7ddb31ce1dbc66032b1c2f14a87c26500aca741141a040ba,
              0x1521b4139d59dd46e5565b9db568908af5f45f9eaeef2ebe1a7d5d9f911,
              0x814b321561d7d0ed77172c7837bf54c460708ffbd230922f89ae1fba2a2,
              0x4145cdc672cce1babe03b600ef34e5cc90c4a8f76dafbaa7e74f4d58d14);
    e := Four(at, 0xabaf8c6b094fd0f32c2ccabab864dbecd99144679c1adf804898fb2042b, 0xa118eb0f9d8184bab59e8e45df736d65fba3c64f4aa855bc8921ac18308, e, true, false, false, false,
              0x4145cdc672cce1babe03b600ef34e5cc90c4a8f76dafbaa7e74f4d58d14,
              0x5a7ae6b65105339b61c12d319c3c1057b4b930f763c5b98b7d5373db59c,
              0x4c37276d9691be7c056b2f28a7d7fc2d5573e792c34a16d50a712730344,
              0x1275dddf30f6f5b353ed555df41b1d14ab2c410f2cf2d59ff3b3f828283,
              0x4909b9ea2ec9a7b910cf3eb8bafb40f4867d33792b4378132e9998d4c8a);
    e := Four(at, 0xabaf8c6b094fd0f32c2ccabab864dbecd99144679c1adf804898fb2042b, 0xa118eb0f9d8184bab59e8e45df736d65fba3c64f4aa855bc8921ac18308, e, false, false, false, true,
              0x4909b9ea2ec9a7b910cf3eb8bafb40f4867d33792b4378132e9998d4c8a,
              0x135ca7a6083f56b92b0f3166b6afb9183c66bd7e221f4124a64ffc7b79,
              0x937e3ad229d4b3d482feb386306ef59a45880b0eb66769396237b6737ea,
              0x826cb454bce2819745430223de1b84d36322a6db64e1542fc42e29adac0,
              0x5bc94b0f9f61f6290a8e318de8176e243bf0ac26d0870c5dc8fc7072899);
    e := Four(at, 0xabaf8c6b094fd0f32c2ccabab864dbecd99144679c1adf804898fb2042b, 0xa118eb0f9d8184bab59e8e45df736d65fba3c64f4aa855bc8921ac18308, e, false, true, false, true,
              0x5bc94b0f9f61f6290a8e318de8176e243bf0ac26d0870c5dc8fc7072899,
              0x2c1ad7e1850542ce850cfef0c518fc6cf35c902715ad4cd1bff9d07c107,
              0xdb193a211c8411a640a2dc782009608f9d15f6db4a3705061675dcae21,
              0x8cb0df9f9bd995ebdbd0b2f81b2b02679640fc30253f82212897489dfa2,
              0x41a0bd2693151d443b62e7c331b15e77c8072326dd16e247efb7bfbbe39);
    e := Four(at, 0xabaf8c6b094fd0f32c2ccabab864dbecd99144679c1adf804898fb2042b, 0xa118eb0f9d8184bab59e8e45df736d65fba3c64f4aa855bc8921ac18308, e, true, false, true, false,
              0x41a0bd2693151d443b62e7c331b15e77c8072326dd16e247efb7bfbbe39,
              0x8c5a87bb28f66d2845b1dbad230965d7c341f1338e57e9e0e55bdae2de3,
              0x3c9ba986d51528485eba12677a53fb2e15dbf3be3898cd080468f3081ce,
              0x22fb53421c84439ebc0659b177cb219085ba041bffb4b250c37468e8cdb,
              0x3adf545ec73b51fedeb89bde091359c2417c7ff0a2a6cf0a26dc49f2e97);
    e := Four(at, 0xabaf8c6b094fd0f32c2ccabab864dbecd99144679c1adf804898fb2042b, 0xa118eb0f9d8184bab59e8e45df736d65fba3c64f4aa855bc8921ac18308, e, false, false, false, true,
              0x3adf545ec73b51fedeb89bde091359c2417c7ff0a2a6cf0a26dc49f2e97,
              0x1d5ea61f2cbe225b538f19004456a066c711d2b2922dc61a9db9402d113,
              0x8085b9363e04ff6f91ca4f7359073735fc00b5b247abd03f5e7c6be0ada,
              0x6fa4d8eabfdcf11a306015cf431ce0f5ca2d1d066e00531ca107ef9c104,
              0xc333e695c557dea1833a6d4c2ebd8e9becd7e01880c70229f73ef0ee6f);
    e := Four(at, 0xabaf8c6b094fd0f32c2ccabab864dbecd99144679c1adf804898fb2042b, 0xa118eb0f9d8184bab59e8e45df736d65fba3c64f4aa855bc8921ac18308, e, false, true, true, true,
              0xc333e695c557dea1833a6d4c2ebd8e9becd7e01880c70229f73ef0ee6f,
              0x7c1736c3918a05259e02cfdbc326c5aee5ae2ad0dcca4f58ae46f24fb3c,
              0x42a137b599d4ccaff49da9f7f91a3595e00e3c24721375b63d046801884,
              0xa2fd1fa64ee822268ee8214a7640ee860028ccf5af3de686026eb2aec62,
              0xe0b5ae692be86abe4f0763d240a8c16e14af973a0442bf342a9877f25f);
  }

  lemma PowerQ2(at: Powers)
    requires Names(at, 0xabaf8c6b094fd0f32c2ccabab864dbecd99144679c1adf804898fb2042b, 0xa118eb0f9d8184bab59e8e45df736d65fba3c64f4aa855bc8921ac18308)
    ensures at(0xe87c2a477b815a1793787395, 0xaa8753e2e48c553a6ee84837a7afaa12e90be701a6d6ebc59a010d5907c)
  {
    PowerQ1(at);
    var e: nat := 0xe87c2a477b815a17;
    e := Four(at, 0xabaf8c6b094fd0f32c2ccabab864dbecd99144679c1adf804898fb2042b, 0xa118eb0f9d8184bab59e8e45df736d65fba3c64f4aa855bc8921ac18308, e, true, false, false, true,
              0xe0b5ae692be86abe4f0763d240a8c16e14af973a0442bf342a9877f25f,
              0x13d8e5901f6c8ba1bab7a879e53b73cdeefe2764865bd0c251e5ea3c736,
              0x5544d14241e0efc6ed836c880257df8dbd63fd0ba6502c7b66617d9db60,
              0x2d276a198937bd057addbbc7a952e6195bdd1515b34a80a614de2f38034,
              0x4dbda4b7be7c597933d2c2e02ed65b14f8b8beb749fb71e27a01b85eac5);
    e := Four(at, 0xabaf8c6b094fd0f32c2ccabab864dbecd99144679c1adf804898fb2042b, 0xa118eb0f9d8184bab59e8e45df736d65fba3c64f4aa855bc8921ac18308, e, false, false, true, true,
              0x4dbda4b7be7c597933d2c2e02ed65b14f8b8beb749fb71e27a01b85eac5,
              0x77a9083eb4f4dc2edd89f62f8727a4dae6f8febd5f7fb1b4f019b79ab95,
              0x112745b5b0ac7355ea2834b6a1f04b75b62f6ce591b21e384cae733b0e9,
              0xdc15c24c992029e8c4e6786e220ee4015fd80b154bd30e5036f1c04e50,
              0x7879a5f59674f0f8baee443d58990af1d4b8284319cc263bb828de171d2);
    e := Four(at, 0xabaf8c6b094fd0f32c2ccabab864dbecd99144679c1adf804898fb2042b, 0xa118eb0f9d8184bab59e8e45df736d65fba3c64f4aa855bc8921ac18308, e, false, true, true, true,
              0x7879a5f59674f0f8baee443d58990af1d4b8284319cc263bb828de171d2,
              0x93f5ebfe0513c5946b27e33a8f8f0c1bb4b0b37aa8d2963757fc6e501b8,
              0x1b38053a9c01248edb08b3a320656956ef9d30e027ff2e771a3ad53c1a6,
              0x894e47a3ad01834d18fe42e9715023a1e148048095ef7e52e8cdc825f73,
              0x87eb4cb255a29a8e7c5a4e5083a911c9193628ec41e6c414f36ebcf160b);
    e := Four(at, 0xabaf8c6b094fd0f32c2ccabab864dbecd99144679c1adf804898fb2042b, 0xa118eb0f9d8184bab59e8e45df736d65fba3c64f4aa855bc8921ac18308, e, true, false, false, false,
              0x87eb4cb255a29a8e7c5a4e5083a911c9193628ec41e6c414f36ebcf160b,
              0x1647086a7fed5d421930ecffc127b37ccc7e8dff61932f69b557cd2d278,
              0xccae0b69a05f5ce20b55c81b50394bdfe023d0428cb66710b71d1c8354,
              0x5ab97eaa58158e091556f2ce0cf87d59cd724f6ba26f4922eb6d418ed55,
              0x576f3c4c28aec4e2460338906ab9ac647159bbe6483e87e60682c6b6c3);
    e := Four(at, 0xabaf8c6b094fd0f32c2ccabab864dbecd99144679c1adf804898fb2042b, 0xa118eb0f9d8184bab59e8e45df736d65fba3c64f4aa855bc8921ac18308, e, false, true, true, true,
              0x576f3c4c28aec4e2460338906ab9ac647159bbe6483e87e60682c6b6c3,
              0xa26416b484a38c5754ce27f60fb4cea2629e2d5714467911e7350832f6c,
              0x25f1bebb0dd9b80cc0aa701df7c2f76d1e3076919f7c7b0f234463399d8,
              0xa879d94320d3c13283e150de5974f6f506b02c944574488f3763b3a604b,
              0x64cac31c919b935f1547c173a2ecab65db86cdc408a49da5b2070910130);
    e := Four(at, 0xabaf8c6b094fd0f32c2ccabab864dbecd99144679c1adf804898fb2042b, 0xa118eb0f9d8184bab59e8e45df736d65fba3c64f4aa855bc8921ac18308, e, false, false, true, true,
              0x64cac31c919b935f1547c173a2ecab65db86cdc408a49da5b2070910130,
              0xa3f671f44ffffcca283fe63d27efa101bf0c5b32fc4037fad2dd847c3e5,
              0x1f1faa2ad73d39374e4b9a14393289259e73ff1d149fd4c38a014fc8e2c,
              0x98b79ecec4294ccd223ef062fb80e95a357d0c0ad2128f3807443f2945c,
              0x42a75d74dd5854e48c5bc6f3120861bfa26cdc4b107213726e674ef60d3);
    e := Four(at, 0xabaf8c6b094fd0f32c2ccabab864dbecd99144679c1adf804898fb2042b, 0xa118eb0f9d8184bab59e8e45df736d65fba3c64f4aa855bc8921ac18308, e, true, false, false, true,
              0x42a75d74dd5854e48c5bc6f3120861bfa26cdc4b107213726e674ef60d3,
              0x71b521f7b180d00e938ba880945963d153c59e511ca39a951bbbe6e0b3a,
              0x452787058f602bea144998ad11ac27816a18e6dbb18035d5a8e033003a6,
              0xa4158e4956f643d130fda6719c0cdddd354fcc534d071877fd1882a4b61,
              0x1eef041bbbe4684ed28066981df940860160a7f2a67079c025a8bcc97ee);
    e := Four(at, 0xabaf8c6b094fd0f32c2ccabab864dbecd99144679c1adf804898fb2042b, 0xa118eb0f9d8184bab59e8e45df736d65fba3c64f4aa855bc8921ac18308, e, false, true, false, true,
              0x1eef041bbbe4684ed28066981df940860160a7f2a67079c025a8bcc97ee,
              0x47aff62216702f36f429db368b159192106d9e80a240d5a69216f1286cc,
              0x3640de1fdecfb7b133784f9091e75f84e8a6fe8cff6469f06a72a559eac,
              0x2f1aad0673654ce104a16d68c2d269ca9db6af558e83ddb81b12f05e607,
              0xaa8753e2e48c553a6ee84837a7afaa12e90be701a6d6ebc59a010d5907c);
  }

  lemma PowerQ3(at: Powers)
    requires Names(at, 0xabaf8c6b094fd0f32c2ccabab864dbecd99144679c1adf804898fb2042b, 0xa118eb0f9d8184bab59e8e45df736d65fba3c64f4aa855bc8921ac18308)
    ensures at(0xe87c2a477b815a1793787395b23e1, 1)
  {
    PowerQ2(at);
    var e: nat := 0xe87c2a477b815a1793787395;
    e := Four(at, 0xabaf8c6b094fd0f32c2ccabab864dbecd99144679c1adf804898fb2042b, 0xa118eb0f9d8184bab59e8e45df736d65fba3c64f4aa855bc8921ac18308, e, true, false, true, true,
              0xaa8753e2e48c553a6ee84837a7afaa12e90be701a6d6ebc59a010d5907c,
              0x807d90dbedcf9cbe1f6bbb8a98036e5a745f2dbbf2f461b0ac3cdae2a48,
              0x8c36d937b7fb8d95297ae3f389bd5be20a467de384373d8a4fdd91c9628,
              0x5eb4cba33076bea583df5bfa75196061584655185920758313975605f60,
              0x231fd69125647c9c3524a011dcefd665c1ec24fd92619a6b2314f466802);
    e := Four(at, 0xabaf8c6b094fd0f32c2ccabab864dbecd99144679c1adf804898fb2042b, 0xa118eb0f9d8184bab59e8e45df736d65fba3c64f4aa855bc8921ac18308, e, false, false, true, false,
              0x231fd69125647c9c3524a011dcefd665c1ec24fd92619a6b2314f466802,
              0x5afd89e3f5f0e9cf0d27a20fd9880b987003ab470ec2c75450aefb7672e,
              0x29dbd3ecd3042d5e90b82161bf909eb5bb0722739ab4fb5798e80b6a3a7,
              0x6df099dba2f52c4847641c2fdfc3bf113296c14ff325005e0b844d7cf59,
              0x430f5a0aceb9a83e8cecc8696a4a796abd5746ff3b4aad08f17e18a89f2);
    e := Four(at, 0xabaf8c6b094fd0f32c2ccabab864dbecd99144679c1adf804898fb2042b, 0xa118eb0f9d8184bab59e8e45df736d65fba3c64f4aa855bc8921ac18308, e, false, false, true, true,
              0x430f5a0aceb9a83e8cecc8696a4a796abd5746ff3b4aad08f17e18a89f2,
              0x89f866642659d689db1147413bde07bb95836b8f48acf66afeb0a783d37,
              0x4cec2728adecc3dac46ad3cda7a0378037a6d6430311d36321168174082,
              0x593999941d53fa862093b8c1312ed5dd5da4c9cfee977a895d43bdb4496,
              0xa7f2a89537e29ecc3ef90f60dbb855ebdbd8184e6922ec0915f7e3b8486);
    e := Four(at, 0xabaf8c6b094fd0f32c2ccabab864dbecd99144679c1adf804898fb2042b, 0xa118eb0f9d8184bab59e8e45df736d65fba3c64f4aa855bc8921ac18308, e, true, true, true, false,
              0xa7f2a89537e29ecc3ef90f60dbb855ebdbd8184e6922ec0915f7e3b8486,
              0x3140a2a0e25c94e183f329a89f21ddd6b15fb46c014a58949715bdaf083,
              0x1dec702ff514def393a13de3791001b6fec476630ba72aca68d010bb15a,
              0x65daae495df8bf03f796cd0fb17417360decc828634efa5843fcb38975,
              0x9d6ef5f5f52fef9387c54ea455f297eab23cc8947f1566a17c9ec5cccaf);
    e := Four(at, 0xabaf8c6b094fd0f32c2ccabab864dbecd99144679c1adf804898fb2042b, 0xa118eb0f9d8184bab59e8e45df736d65fba3c64f4aa855bc8921ac18308, e, false, false, false, true,
              0x9d6ef5f5f52fef9387c54ea455f297eab23cc8947f1566a17c9ec5cccaf,
              0x5b12fd89764032e8cf229dcee5c41333b78d93fcce1b082fd78b6aa59d9,
              0xd5132c9e69001a4c28ac6027327fd2ad76e94ff28a7be4fb3616a5677a,
              0x1169c6da3a43d317a0dd55f1163954c1dddae49eb6508bedb8c8bbe36c5, 1);
  }

  lemma PrimeQ()
    ensures IsPrime(0xabaf8c6b094fd0f32c2ccabab864dbecd99144679c1adf804898fb2042b)
  {
    PrimeR();
    var at := NameFor(0xabaf8c6b094fd0f32c2ccabab864dbecd99144679c1adf804898fb2042b, 0xa118eb0f9d8184bab59e8e45df736d65fba3c64f4aa855bc8921ac18308);
    PowerQ3(at);
    PrimeBy(at, 0xabaf8c6b094fd0f32c2ccabab864dbecd99144679c1adf804898fb2042b, 0xe87c2a477b815a1793787395b23e1, 0xa118eb0f9d8184bab59e8e45df736d65fba3c64f4aa855bc8921ac18308, 0xa35a14fb1452ddd0fca6eef50ac9bd9a369cab894104fc366d4fa595e38, 0xbd0d14cf78e7521a329188e9fa496a);
  }

  // The field prime, by an element of order Q.

  lemma PowerP0(at: Powers)
    requires Names(at, 0x7fffffffffffffffffffffffffffffffffffffffffffffffffffffffffffffed, 0xf1ba0c491eeef83c49fc1b744331bb096d4893142c187431f7b03e61a75a49)
    ensures at(0xabaf8c6b, 0x5679a457f3f9d312d133adc8fdef7161de05d229f96e741a1616a1d3bbb18c7a)
  {
    AtZero(at, 0x7fffffffffffffffffffffffffffffffffffffffffffffffffffffffffffffed, 0xf1ba0c491eeef83c49fc1b744331bb096d4893142c187431f7b03e61a75a49);
    var e: nat := 0;
    e := Four(at, 0x7fffffffffffffffffffffffffffffffffffffffffffffffffffffffffffffed, 0xf1ba0c491eeef83c49fc1b744331bb096d4893142c187431f7b03e61a75a49, e, true, false, true, false,
              1, 0xf1ba0c491eeef83c49fc1b744331bb096d4893142c187431f7b03e61a75a49,
              0x709073d1ffed033997883f60abf9ed49b8362089b7f71c7d9dea1ea56f01adee,
              0x342a7d325b0b1ff95b5e45ca9165b32067bc4e206eb80f25089a8b32c3d11a1d,
              0xde3eefd0bbc56806ab55ac396d56536597518ca60c8bf895e478d477333e84d);
    e := Four(at, 0x7fffffffffffffffffffffffffffffffffffffffffffffffffffffffffffffed, 0xf1ba0c491eeef83c49fc1b744331bb096d4893142c187431f7b03e61a75a49, e, true, false, true, true,
              0xde3eefd0bbc56806ab55ac396d56536597518ca60c8bf895e478d477333e84d,
              0x173b5223758edb62921c9bf8a68146cc07c570efc7c06ca7a00761d2c814953e,
              0x20a53b8acc952df93aea51ce9d19b16922de85fdf57dfc2ddf28d1a90dcd5c07,
              0x5efcde1eb0f30ca2f3fa976377706e6a5fa92249e756d86944e7579cf17e150f,
              0x206fd5b3d4c68b4e2d908036ae1b16e4911d221e0517027258ca8648cae9df61);
    e := Four(at, 0x7fffffffffffffffffffffffffffffffffffffffffffffffffffffffffffffed, 0xf1ba0c491eeef83c49fc1b744331bb096d4893142c187431f7b03e61a75a49, e, true, false, true, false,
              0x206fd5b3d4c68b4e2d908036ae1b16e4911d221e0517027258ca8648cae9df61,
              0x4280d7058e650161fa382cfca316d65987fef4b6ef59cb56a6ed4f264eceb50a,
              0x4046bd38be5d3d4fcebb0e64abf0bc2453d46d9b95a8d83b59ce18f55b686889,
              0x9313e5f19a530856ecc12c379512ac0493c0e915c3b8457a0736a263cc9ffd9,
              0x622abf3ba84630b1c78623f273cef54982157087116959363dc76bc858dadc06);
    e := Four(at, 0x7fffffffffffffffffffffffffffffffffffffffffffffffffffffffffffffed, 0xf1ba0c491eeef83c49fc1b744331bb096d4893142c187431f7b03e61a75a49, e, true, true, true, true,
              0x622abf3ba84630b1c78623f273cef54982157087116959363dc76bc858dadc06,
              0x596849f876e40452618571a5dba3cecfade37e01e3985e16df74b00662549dd1,
              0x1b1fd343b4c5dd12d86f1aa9dcd532e025ffed3b0ad1f12f2eda876d7a634642,
              0x3b27bb19d202a367b2264069c7721a4e5c31382e19583098d98fdda91b4befc0,
              0x5fde9c5122278812c06536482605c2a3a7b23185dbb19d8ef04cae67c0020692);
    e := Four(at, 0x7fffffffffffffffffffffffffffffffffffffffffffffffffffffffffffffed, 0xf1ba0c491eeef83c49fc1b744331bb096d4893142c187431f7b03e61a75a49, e, true, false, false, false,
              0x5fde9c5122278812c06536482605c2a3a7b23185dbb19d8ef04cae67c0020692,
              0x12e49f6bde7bb9edecf25e489856e1005576b78c1fdf843dfe9e3b538900e6ea,
              0x2abc0b874a38e2940465b615bffdb6dc321808eaa693f78c208ffe09f41a1c6,
              0x4c389106cfede6474cb9e4ac9a987d1237dd26d40ad6d57b0b6dd30d09e576e9,
              0x1dadfa118c804147f38342b13a809bd489473f161be3cb125ec35016f0baf036);
    e := Four(at, 0x7fffffffffffffffffffffffffffffffffffffffffffffffffffffffffffffed, 0xf1ba0c491eeef83c49fc1b744331bb096d4893142c187431f7b03e61a75a49, e, true, true, false, false,
              0x1dadfa118c804147f38342b13a809bd489473f161be3cb125ec35016f0baf036,
              0x2db19c30ffa03765ee0ce31d1ad72bc2143ebe5dcc9242fbda66af683e75a90c,
              0x42b46e1a95fb5f3a97725084bb33d6c4a294b6580b5454ea392fde331c211c50,
              0xf2b0a87ccb37618d1481272101cbcf2299ffefb0f5b4d7481db71194151371c,
              0x6ab9446f2fd2cc9b0e3d84e2a3e9326ae3703f22d1f89b53655acb7921b442ae);
    e := Four(at, 0x7fffffffffffffffffffffffffffffffffffffffffffffffffffffffffffffed, 0xf1ba0c491eeef83c49fc1b744331bb096d4893142c187431f7b03e61a75a49, e, false, true, true, false,
              0x6ab9446f2fd2cc9b0e3d84e2a3e9326ae3703f22d1f89b53655acb7921b442ae,
              0x4daaa5b15a1dff505dff758a7a686b3b33a4719395c5cd1c5adcccd5c48598d4,
              0x1cd0e3de30318dbd09003d65dc46fe179f6934eaf40fc4f31234a55cacdafc75,
              0x5da44e87f253f8acf1f3f9d71da72817c5a27765deaca0793443f55d141df32,
              0x2fb68890fb9d699f5c26bef68430ece1c910a3378f0aa05da3513eab05eb1f0f);
    e := Four(at, 0x7fffffffffffffffffffffffffffffffffffffffffffffffffffffffffffffed, 0xf1ba0c491eeef83c49fc1b744331bb096d4893142c187431f7b03e61a75a49, e, true, false, true, true,
              0x2fb68890fb9d699f5c26bef68430ece1c910a3378f0aa05da3513eab05eb1f0f,
              0x6e5fa880af41aaafff15619b0bb84882c0748b350bde7ed01a96c9884d5de8de,
              0x3ab413a3dda977ab29e4ee7ce5a249241dffcb20ff9d774f55c77eb17dbf3c8e,
              0x792ecd9402e9aa77f8bde3a2c22b20a0f9ba70a2b8e42c2c35c656adb51ea9aa,
              0x5679a457f3f9d312d133adc8fdef7161de05d229f96e741a1616a1d3bbb18c7a);
  }

  lemma PowerP1(at: Powers)
    requires Names(at, 0x7fffffffffffffffffffffffffffffffffffffffffffffffffffffffffffffed, 0xf1ba0c491eeef83c49fc1b744331bb096d4893142c187431f7b03e61a75a49)
    ensures at(0xabaf8c6b094fd0f3, 0x408bb1af6f2e580b0e1b2810ab3dd9cbf8766a309398165714a58144c3f56e75)
  {
    PowerP0(at);
    var e: nat := 0xabaf8c6b;
    e := Four(at, 0x7fffffffffffffffffffffffffffffffffffffffffffffffffffffffffffffed, 0xf1ba0c491eeef83c49fc1b744331bb096d4893142c187431f7b03e61a75a49, e, false, false, false, false,
              0x5679a457f3f9d312d133adc8fdef7161de05d229f96e741a1616a1d3bbb18c7a,
              0x3c02e8b18db0def0805c51cad45268b94873ddabc53ffdfe58d3cb223fa2abb1,
              0x1e421e8bc5f8278149d3539d6a06b05e578cce9da8a8dcefed198effaa38a44c,
              0x2361e3cfd291e017e1654f76faa969916ee7e6e261523f1535610aa7121a92ec,
              0x29afa85dcabde5f9fb5b594cdf54c7668ba4121e4542c8e998c7faed07eae4dc);
    e := Four(at, 0x7fffffffffffffffffffffffffffffffffffffffffffffffffffffffffffffed, 0xf1ba0c491eeef83c49fc1b744331bb096d4893142c187431f7b03e61a75a49, e, true, false, false, true,
              0x29afa85dcabde5f9fb5b594cdf54c7668ba4121e4542c8e998c7faed07eae4dc,
              0x77298a8a57aedb56b4dc6a912b407714cfe9ba880998daef31c56c139522a7c0,
              0x149fada88136c7aae3fd0d56aa59202db1e12ec3a72020399e2dcac5356dd1fd,
              0x5a304c2b69a3cf59ef3fa22667fdbd9a023aaf5720984b04e7caac97788f4980,
              0x20f1e54f465a32cf2be5a1530a987ed4057d48ae46bb593aca2aac6d53954ab);
    e := Four(at, 0x7fffffffffffffffffffffffffffffffffffffffffffffffffffffffffffffed, 0xf1ba0c491eeef83c49fc1b744331bb096d4893142c187431f7b03e61a75a49, e, false, true, false, false,
              0x20f1e54f465a32cf2be5a1530a987ed4057d48ae46bb593aca2aac6d53954ab,
              0x33cfa5667d3565f60c39f5c51b3841c06690ba0a109bd9028eee35eda0a6ff42,
              0x25077c77a63c5734190e06c2f38e153ada52c9208983a49ec3e83e39ca650d0d,
              0x1dc53f7c84cd7871e8f89c2d5a42078bf34b36de79bb26fecdc37a1fae2a6d14,
              0x68afa9bc0909b911996836028aae7434c8b2b107f12709482f280331d893c583);
    e := Four(at, 0x7fffffffffffffffffffffffffffffffffffffffffffffffffffffffffffffed, 0xf1ba0c491eeef83c49fc1b744331bb096d4893142c187431f7b03e61a75a49, e, true, true, true, true,
              0x68afa9bc0909b911996836028aae7434c8b2b107f12709482f280331d893c583,
              0x286dc99b21b02e642638c0a08fad1a20a3cd334ee28f39f0b3745baeef3023eb,
              0x4c12133080ca764bc0c84a9516a937244d2351d7504f074885c3bacc634e88d,
              0x15c7080e2dd597cf730e6bd616dd42198a95e1fc574979fbb620d4b770a35cb,
              0x471f152bf9b3873b869c9330df042660bcddabf5cfe9571c7ab8e09dd6276132);
    e := Four(at, 0x7fffffffffffffffffffffffffffffffffffffffffffffffffffffffffffffed, 0xf1ba0c491eeef83c49fc1b744331bb096d4893142c187431f7b03e61a75a49, e, true, true, false, true,
              0x471f152bf9b3873b869c9330df042660bcddabf5cfe9571c7ab8e09dd6276132,
              0x178e9940b376c8a5918af83bd909796dae125c6577e12a9ec5dce97821290da1,
              0x7512e77e51dc76a239d5f7433804ae2f4e0a9567afea3dc4a1eee0ca69ab4c77,
              0x5a4dd56a3b0be1a5f349f615911a9619d3fdcc2eac27445e5505e57e0dbcc5cc,
              0x56a706447989e1133d5a4b694e77dc0fb5766dae4ca20bad5ac7428ce030ba65);
    e := Four(at, 0x7fffffffffffffffffffffffffffffffffffffffffffffffffffffffffffffed, 0xf1ba0c491eeef83c49fc1b744331bb096d4893142c187431f7b03e61a75a49, e, false, false, false, false,
              0x56a706447989e1133d5a4b694e77dc0fb5766dae4ca20bad5ac7428ce030ba65,
              0xeead903d09e97b46028a885b1c3aaa02b2df2896b7708f753494e4e0474d79d,
              0x6d5235f572ce77058749b94ef0c65dc3dfddff52b85d31f80ff625db5eeef237,
              0x2db8d160d5f6d69c11bf0187ffcfa33bfc04c4ad800ca39f6766bb2f0ba7a45c,
              0x7d417ec6d98a1286b74f85f5140448d4347e8bc4e5cd04fc3df149a0575e3a90);
    e := Four(at, 0x7fffffffffffffffffffffffffffffffffffffffffffffffffffffffffffffed, 0xf1ba0c491eeef83c49fc1b744331bb096d4893142c187431f7b03e61a75a49, e, true, true, true, true,
              0x7d417ec6d98a1286b74f85f5140448d4347e8bc4e5cd04fc3df149a0575e3a90,
              0x496ca1371605291e417d564e40404ba49757e4165f02eb38f33221632382ba0c,
              0x8dfee1e1b27bd0e7028ada4f9ab839d883f209217343c88e64fbd1572f03880,
              0x7d986e685fb31232060c80d7deb458c4a1dbc790dd7b037a54d6c51055955be7,
              0x2088a85bfeed3aa50710c8f24742a0bad652ba7e4c2bbb0578cd3ed942694a2b);
    e := Four(at, 0x7fffffffffffffffffffffffffffffffffffffffffffffffffffffffffffffed, 0xf1ba0c491eeef83c49fc1b744331bb096d4893142c187431f7b03e61a75a49, e, false, false, true, true,
              0x2088a85bfeed3aa50710c8f24742a0bad652ba7e4c2bbb0578cd3ed942694a2b,
              0x126ee220acd3667a4f7286bbaacdb76d37eb2baabcd768640c7c4897c36a077a,
              0x120173a9d1c23cefe169ae6a9594d893208de899a04b73b6f85f2809f3b4c15c,
              0x7e475e14ba1e9d4dd5408d0b552b88527ba2db3bd74cd1a7039c07ef9270aee6,
              0x408bb1af6f2e580b0e1b2810ab3dd9cbf8766a309398165714a58144c3f56e75);
  }

  lemma PowerP2(at: Powers)
    requires Names(at, 0x7fffffffffffffffffffffffffffffffffffffffffffffffffffffffffffffed, 0xf1ba0c491eeef83c49fc1b744331bb096d4893142c187431f7b03e61a75a49)
    ensures at(0xabaf8c6b094fd0f32c2ccaba, 0x25b8863664a2c65e100b5d96599a41b343dabc28440377b2a6243bde8282771)
  {
    PowerP1(at);
    var e: nat := 0xabaf8c6b094fd0f3;
    e := Four(at, 0x7fffffffffffffffffffffffffffffffffffffffffffffffffffffffffffffed, 0xf1ba0c491eeef83c49fc1b744331bb096d4893142c187431f7b03e61a75a49, e, false, false, true, false,
              0x408bb1af6f2e580b0e1b2810ab3dd9cbf8766a309398165714a58144c3f56e75,
              0x436a55c2bf5f9d48d428f4c48d8c2c80d997388b64af202916032a7ae61b0a45,
              0x71c3adf5d617a9591bc758a60aeafe94e871d4f39ed0971625289da78ba07fd0,
              0x68276ce741cdcd7cd38a0a23412b8c00192f9fa1cf0286c05c2c4c083e00abfb,
              0x598738696b1a78ef858825e3bb42b77d3c440b0ffb4023d034e430d68a10f92d);
    e := Four(at, 0x7fffffffffffffffffffffffffffffffffffffffffffffffffffffffffffffed, 0xf1ba0c491eeef83c49fc1b744331bb096d4893142c187431f7b03e61a75a49, e, true, true, false, false,
              0x598738696b1a78ef858825e3bb42b77d3c440b0ffb4023d034e430d68a10f92d,
              0x5c59b1136bc282e1c86b8f06950a3113928c21f51560484fd76b871b7179f67a,
              0x6a6071a7dcea1af2065a435440a0f69f10605d6e4fbc49a74fbe68c0520e6df9,
              0x9d68e8f7e638e308f449d21597c233445fa35a03fba5325c27aa27e64e8a0aa,
              0x1e660ac6a55e6e3111a1534f02b14663794ff79244fb34cedf622299d628ac38);
    e := Four(at, 0x7fffffffffffffffffffffffffffffffffffffffffffffffffffffffffffffed, 0xf1ba0c491eeef83c49fc1b744331bb096d4893142c187431f7b03e61a75a49, e, false, false, true, false,
              0x1e660ac6a55e6e3111a1534f02b14663794ff79244fb34cedf622299d628ac38,
              0x31baffa49c932c8580091787aa71cbf7afeb155addf3a741960cea738a144461,
              0x2851bd007acd8d127a96e681a514755649246561cd0e743ae5feacdd379e6ce1,
              0x3354ac63e7f1af4710c8fd03e4c9f856224a7b4725fd467e5b49a20d85909e0f,
              0x51180164514973e4545bf09b322ea4daa755664baeb901d6eb28dd91b6399a38);
    e := Four(at, 0x7fffffffffffffffffffffffffffffffffffffffffffffffffffffffffffffed, 0xf1ba0c491eeef83c49fc1b744331bb096d4893142c187431f7b03e61a75a49, e, true, true, false, false,
              0x51180164514973e4545bf09b322ea4daa755664baeb901d6eb28dd91b6399a38,
              0x782f22fffe936fa125c3ea8e84d7dc675cb4bd5fb2c418610414741adb67f65e,
              0x4fd6c4a4f2ab92028ad7e8e7c28dbbb894eb8fb08a50e4f99399372c6bcadb5c,
              0x8e20f917865a60bfe6eea56e5a27f5e58e78075aab5448e3a58f3295c0aaad2,
              0x3a4ff0bad668aae8ee21301a2ea87405593b3f928b0646baf03caadf60a729f7);
    e := Four(at, 0x7fffffffffffffffffffffffffffffffffffffffffffffffffffffffffffffed, 0xf1ba0c491eeef83c49fc1b744331bb096d4893142c187431f7b03e61a75a49, e, true, true, false, false,
              0x3a4ff0bad668aae8ee21301a2ea87405593b3f928b0646baf03caadf60a729f7,
              0x4b04a755f9e718a4b374b3b6b0a5236a4c9c8b77371000b103ade1660dde3a25,
              0x20fde7fc9957dd11a867a2c4b307c7c91963ea072b897998cdb7069db572793d,
              0x4402e1f3f886ba24b3bd24737f90d2caac855b45851565ceaac2928b1b2d0a72,
              0x72b9d444f95f46b8ad9f0e0ef87e4038ad3e36b33dd749609dfc106e8e9a6051);
    e := Four(at, 0x7fffffffffffffffffffffffffffffffffffffffffffffffffffffffffffffed, 0xf1ba0c491eeef83c49fc1b744331bb096d4893142c187431f7b03e61a75a49, e, true, false, true, false,
              0x72b9d444f95f46b8ad9f0e0ef87e4038ad3e36b33dd749609dfc106e8e9a6051,
              0x3932051069dfadf21477fefcab7348a9903e003c16b75e6318d9e0285848ddeb,
              0x24ab9f45bd4a4757d4777478edff94e928b99ea50d790362033312a35ee0435f,
              0x14b1fe595c3851a79800d11aa61b32ad562b0804f1ccc9638003b5c100fa144e,
              0x2ff99ed066da187429838f40e8d46dcf272f51dba77afab163c10446a53a8b72);
    e := Four(at, 0x7fffffffffffffffffffffffffffffffffffffffffffffffffffffffffffffed, 0xf1ba0c491eeef83c49fc1b744331bb096d4893142c187431f7b03e61a75a49, e, true, false, true, true,
              0x2ff99ed066da187429838f40e8d46dcf272f51dba77afab163c10446a53a8b72,
              0x1d195d06b273bcc82e61e90bde48be28925c10c7324c09f6689300f5673d0b77,
              0x4ce306502f60831bc6d924493f4d22ce514f935849e37cc0e8bca8d7ea4afe18,
              0xe7229725d4f80ca0bde877b650228d3b06338e2077eca427408503b24f72885,
              0x125807166bf9a6e02e26fbc39953d5185ffefc092a4a412139accbb5d8440f76);
    e := Four(at, 0x7fffffffffffffffffffffffffffffffffffffffffffffffffffffffffffffed, 0xf1ba0c491eeef83c49fc1b744331bb096d4893142c187431f7b03e61a75a49, e, true, false, true, false,
              0x125807166bf9a6e02e26fbc39953d5185ffefc092a4a412139accbb5d8440f76,
              0x277ac56a20c44869c38c29e923b1da1c6cafd3fd200a2d0b97cff5307d9cff79,
              0x4765f2a22892c92360a6fd164e70ba4824e8d91519b7b610465505660e420db1,
              0x69393507a6f478a3572216f6bca96457e9a90e344f912dc66f5f1fdcac41d9d2,
              0x25b8863664a2c65e100b5d96599a41b343dabc28440377b2a6243bde8282771);
  }

  lemma PowerP3(at: Powers)
    requires Names(at, 0x7fffffffffffffffffffffffffffffffffffffffffffffffffffffffffffffed, 0xf1ba0c491eeef83c49fc1b744331bb096d4893142c187431f7b03e61a75a49)
    ensures at(0xabaf8c6b094fd0f32c2ccabab864dbec, 0x1ff921169ce8eb39e2b2d89c7b840a00c8bdb992423d2b382d585236579ec933)
  {
    PowerP2(at);
    var e: nat := 0xabaf8c6b094fd0f32c2ccaba;
    e := Four(at, 0x7fffffffffffffffffffffffffffffffffffffffffffffffffffffffffffffed, 0xf1ba0c491eeef83c49fc1b744331bb096d4893142c187431f7b03e61a75a49, e, true, false, true, true,
              0x25b8863664a2c65e100b5d96599a41b343dabc28440377b2a6243bde8282771,
              0x566677300075fe883e8bf85ae3ab2c651070c4e90506db5f60d0ea2c95ce42d3,
              0xd619ccfc6199823806750dbb4fb04a358e1d5555a2e1a545f9b2ffecd7f489b,
              0x5286b35b039263e179eea1d225ff55641a6f5b259943f35d62a74c757a2282d7,
              0x74c27c48a7b8c413267e3ad84fb422172e3bd9245e06ec100e49b0833a2e5d4b);
    e := Four(at, 0x7fffffffffffffffffffffffffffffffffffffffffffffffffffffffffffffed, 0xf1ba0c491eeef83c49fc1b744331bb096d4893142c187431f7b03e61a75a49, e, true, false, false, false,
              0x74c27c48a7b8c413267e3ad84fb422172e3bd9245e06ec100e49b0833a2e5d4b,
              0x2435441ace3107bb452c944b643468bd8fc12a3b2393df1d92f6681acd02e7a6,
              0xef4e8a6b5335e718464d99ea63238c1f431cc85f2ce304b9955ecf813853b00,
              0x98b21d7ea0c1f5075e6bf5604cfb981a0cc754b65b7fd36c0280fe24dd5e069,
              0x70375f32e278a7366b098a856fcff94eb55ef90f8e8eae6573dcec0d1e3b3ee4);
    e := Four(at, 0x7fffffffffffffffffffffffffffffffffffffffffffffffffffffffffffffed, 0xf1ba0c491eeef83c49fc1b744331bb096d4893142c187431f7b03e61a75a49, e, false, true, true, false,
              0x70375f32e278a7366b098a856fcff94eb55ef90f8e8eae6573dcec0d1e3b3ee4,
              0x3fc17a7b95618b62c7fdf64995e80beef762ac51fa511f12dd3819b3bd704ec8,
              0x4297ceff3eb507f5737d9b6e10353dba0956eb67d43a6eb91b26598f04b2e93f,
              0x32018dbca6c2d15a87ecacb643fb5b22717ffe896d86cdfb62aa032e8d4ef0d,
              0x4d72af793f012f3144a98a1b96ccd45a7144dcf75fd557d92941d9d9b6f1a811);
    e := Four(at, 0x7fffffffffffffffffffffffffffffffffffffffffffffffffffffffffffffed, 0xf1ba0c491eeef83c49fc1b744331bb096d4893142c187431f7b03e61a75a49, e, false, true, false, false,
              0x4d72af793f012f3144a98a1b96ccd45a7144dcf75fd557d92941d9d9b6f1a811,
              0x1414e4f554a9ee3616038acff7cec89380d43fbdd6c9841c229892171f148bd3,
              0x3fb7fda957cff97a18f25d50d2025558a4af39169f1c0afe615a2c2e8be44016,
              0x3ed15abdadd1691bd68bf917ac7d495bafeae9413ec5b655bfd7767c8fbf5878,
              0x6bcd80e7d3ed2f481a54c95c22f4d5611004ca745b245e4106a3e56e28600971);
    e := Four(at, 0x7fffffffffffffffffffffffffffffffffffffffffffffffffffffffffffffed, 0xf1ba0c491eeef83c49fc1b744331bb096d4893142c187431f7b03e61a75a49, e, true, true, false, true,
              0x6bcd80e7d3ed2f481a54c95c22f4d5611004ca745b245e4106a3e56e28600971,
              0x9ec0946233fe68a605b6cc9152a4955eb3a65b7c3fb7a6d5eb37fb95b0f7f99,
              0x7aec489208ba02e91257d345b6ff9cdaeaf37db31c57c05b786554b186a99333,
              0x974468fd31c6a758900d6609435c954e5b38198895e58beb5b854daaf4d106b,
              0xe7aaa5b2c2d55d4d632e9bdf8ac84b1041911e93ae83cae3f93733119c113a4);
    e := Four(at, 0x7fffffffffffffffffffffffffffffffffffffffffffffffffffffffffffffed, 0xf1ba0c491eeef83c49fc1b744331bb096d4893142c187431f7b03e61a75a49, e, true, false, true, true,
              0xe7aaa5b2c2d55d4d632e9bdf8ac84b1041911e93ae83cae3f93733119c113a4,
              0x7be1914630ca25aad4af9bf3f17d6b1b3288e939f0e9059f9245d83365cd848c,
              0x56ca03633b8811bb29cd8d750c1ed87f225e051ee9bf3d042db569d83294e5b0,
              0x71dea9788e33a811b6d7e03c7c2a8686f15decaaf65213523d28db7b903b95bb,
              0x5e08c0e904ecf69c6d01bf9e0dd74977e4cb5b552c0cf4548878a1fe608f73cd);
    e := Four(at, 0x7fffffffffffffffffffffffffffffffffffffffffffffffffffffffffffffed, 0xf1ba0c491eeef83c49fc1b744331bb096d4893142c187431f7b03e61a75a49, e, true, true, true, false,
              0x5e08c0e904ecf69c6d01bf9e0dd74977e4cb5b552c0cf4548878a1fe608f73cd,
              0x3ed478b99775654b1db96aac3bcde6d95bc194038d1859c8acae1507760eab32,
              0x3b127da5595ab21092d6ddd0093372987408a48a7bb353dd18f98b2cf1147ec,
              0x2d7db69b1d28df6956b9bc26a561eab3a4f91ed271293b3a43b5164e32610899,
              0x26e65ef8be9735f822472757ad3ae14fdf112e15d950ae1d1e8f68f4dae0a5cb);
    e := Four(at, 0x7fffffffffffffffffffffffffffffffffffffffffffffffffffffffffffffed, 0xf1ba0c491eeef83c49fc1b744331bb096d4893142c187431f7b03e61a75a49, e, true, true, false, false,
              0x26e65ef8be9735f822472757ad3ae14fdf112e15d950ae1d1e8f68f4dae0a5cb,
              0x1df39c337485e2d1f5829b0fccac0410fe5d806e49965096611eb5b27088edb9,
              0x3662fbf29d4a5453e74ffa5345b5ccb54c96630512014d4791418e2052a8aa5d,
              0x516cc47a0a2f85fdebb43217d0baf54a9f0683131d05e05ebde75bc1aab21a55,
              0x1ff921169ce8eb39e2b2d89c7b840a00c8bdb992423d2b382d585236579ec933);
  }

  lemma PowerP4(at: Powers)
    requires Names(at, 0x7fffffffffffffffffffffffffffffffffffffffffffffffffffffffffffffed, 0xf1ba0c491eeef83c49fc1b744331bb096d4893142c187431f7b03e61a75a49)
    ensures at(0xabaf8c6b094fd0f32c2ccabab864dbecd9914467, 0x565e91c9f3c25b6052c1ee26a55b161299d9d98d5f462027ee9a85a3365cff)
  {
    PowerP3(at);
    var e: nat := 0xabaf8c6b094fd0f32c2ccabab864dbec;
    e := Four(at, 0x7fffffffffffffffffffffffffffffffffffffffffffffffffffffffffffffed, 0xf1ba0c491eeef83c49fc1b744331bb096d4893142c187431f7b03e61a75a49, e, true, true, false, true,
              0x1ff921169ce8eb39e2b2d89c7b840a00c8bdb992423d2b382d585236579ec933,
              0x34a7547ca4f9a1cc4947fbb74ff8713e2c853f070ae4275fd147e5d33cc5e42,
              0x3f1cb0cfb5c7bfb88b009016bdaf1853284d2a9d440466646002d303b4c007a4,
              0x527cc1a57f84707311c838d60061c3e9fe73342a665b8cc96a7565389dfd4704,
              0x6540220c2ff6f07727e06770a7f9ce2969acf5697655c8743cdb340367468cad);
    e := Four(at, 0x7fffffffffffffffffffffffffffffffffffffffffffffffffffffffffffffed, 0xf1ba0c491eeef83c49fc1b744331bb096d4893142c187431f7b03e61a75a49, e, true, false, false, true,
              0x6540220c2ff6f07727e06770a7f9ce2969acf5697655c8743cdb340367468cad,
              0x609263cb4b635d590b4aa64de6a74b6398e039f461811ff9980b709bb5ab37b3,
              0x5b03ad4188eb393a96c354149435d01940a62f450414284d3b6b75cc817b86e2,
              0xfe40733ebc95f7844b2862280ddd386d96e0b142386c368a0da31a03ce57ab3,
              0x2c23dd39e9d257c7625aca98364116e5e31a38258a6ed1fb367d109a0f286cf);
    e := Four(at, 0x7fffffffffffffffffffffffffffffffffffffffffffffffffffffffffffffed, 0xf1ba0c491eeef83c49fc1b744331bb096d4893142c187431f7b03e61a75a49, e, true, false, false, true,
              0x2c23dd39e9d257c7625aca98364116e5e31a38258a6ed1fb367d109a0f286cf,
              0x375b8bb9867b766b8bf1e874a48fdd7f28cc015deafd91de7af634d34e37eb67,
              0x49e400bb6eecb5bb35a63d70a3b14d383697a2a1066295456ac571acb5fe1673,
              0x4cc503c189066740297888b0750a1d4f99c5b492f68d9d6454ad6aada7b9c552,
              0x5cb23a07f0029392f6e377875706d02f20992fdf2a2241e0b4fdb4585212bce7);
    e := Four(at, 0x7fffffffffffffffffffffffffffffffffffffffffffffffffffffffffffffed, 0xf1ba0c491eeef83c49fc1b744331bb096d4893142c187431f7b03e61a75a49, e, false, false, false, true,
              0x5cb23a07f0029392f6e377875706d02f20992fdf2a2241e0b4fdb4585212bce7,
              0x3a17e061dd8da486f43ea02de964c7da16072d41e1a3653e74aefe745848021a,
              0x3307c8530ac39ebbf5db17b92442821a11572fe1d1c4025906708a5662b4ad60,
              0x77a662f8caffedbc7c1da944039dabd5b09c18603446ad2eac2d775cb0cae344,
              0x5810a04f1cd81ed8e7cd3241f4285462560e114366e53b1b55eb4d07055dfab2);
    e := Four(at, 0x7fffffffffffffffffffffffffffffffffffffffffffffffffffffffffffffed, 0xf1ba0c491eeef83c49fc1b744331bb096d4893142c187431f7b03e61a75a49, e, false, true, false, false,
              0x5810a04f1cd81ed8e7cd3241f4285462560e114366e53b1b55eb4d07055dfab2,
              0xd87f69cce8d5673ff54a51c1bac7ccf24a7a830bf36f85db026e69d2f22d625,
              0xb972427e4c493c9f1c0b75916300016d8512f160839cce8e768552b972af872,
              0x71ab9d963eae7ec2edd9a35fbb7783f3a0e59c1397a457477e09dcf1994adb35,
              0x6aaa7687155754d752cd79d9700db5927e1eb54bd705463382dd210abb661ab5);
    e := Four(at, 0x7fffffffffffffffffffffffffffffffffffffffffffffffffffffffffffffed, 0xf1ba0c491eeef83c49fc1b744331bb096d4893142c187431f7b03e61a75a49, e, false, true, false, false,
              0x6aaa7687155754d752cd79d9700db5927e1eb54bd705463382dd210abb661ab5,
              0x1db87bdddeb2f19ca6ab0377d6a9836cfaa50ce5daf01e1dec7e6888f6c066b9,
              0x6049bb9862b7dad5420b469e9c5f643a3d67fb1933538f3a9ac6c2bb90c260b6,
              0x431d4ca5f9a6619d484fdbecc62cf2c34aeb433192ec227869d926aa800c61cf,
              0x734cd3108ddf15e0e5e1c19aa5df9297e03066eb0567d3349f47da79e01335f7);
    e := Four(at, 0x7fffffffffffffffffffffffffffffffffffffffffffffffffffffffffffffed, 0xf1ba0c491eeef83c49fc1b744331bb096d4893142c187431f7b03e61a75a49, e, false, true, true, false,
              0x734cd3108ddf15e0e5e1c19aa5df9297e03066eb0567d3349f47da79e01335f7,
              0x6a2f80413adb5a256bb28d777800aa207513cf030f0fc1ce948137294723be38,
              0x518ab6d958cc47e02e52a745b2551ad8791100f66ee81662966ca9e407bef803,
              0x1db381927f44ae1e9dd744d1726181f09da6ed1c763351fb9d1f5c5c8d2664ce,
              0x71be1da760f4c39d9e1d7af6a79959da6f603a79ace48605ee447483ad957fc);
    e := Four(at, 0x7fffffffffffffffffffffffffffffffffffffffffffffffffffffffffffffed, 0xf1ba0c491eeef83c49fc1b744331bb096d4893142c187431f7b03e61a75a49, e, false, true, true, true,
              0x71be1da760f4c39d9e1d7af6a79959da6f603a79ace48605ee447483ad957fc,
              0x779474c35735e776cdc1fdcacf0de3e3f8ac63ee12ba8f645cb980dc87dc0133,
              0x7f208b30bee5ca828ae7467d7617c8c9518cc2c2f3b3e90b06bc75573935f253,
              0x3cd53f3369ed47ac018e44d3e5bac57bbeeeaf888277ccc9f6b036566d0475ab,
              0x565e91c9f3c25b6052c1ee26a55b161299d9d98d5f462027ee9a85a3365cff);
  }

  lemma PowerP5(at: Powers)
    requires Names(at, 0x7fffffffffffffffffffffffffffffffffffffffffffffffffffffffffffffed, 0xf1ba0c491eeef83c49fc1b744331bb096d4893142c187431f7b03e61a75a49)
    ensures at(0xabaf8c6b094fd0f32c2ccabab864dbecd99144679c1adf80, 0x2a25440ed8fe4dc8b6c08632942cb9aa89bfed75b475ff0e6b3693ec46ff4d31)
  {
    PowerP4(at);
    var e: nat := 0xabaf8c6b094fd0f32c2ccabab864dbecd9914467;
    e := Four(at, 0x7fffffffffffffffffffffffffffffffffffffffffffffffffffffffffffffed, 0xf1ba0c491eeef83c49fc1b744331bb096d4893142c187431f7b03e61a75a49, e, true, false, false, true,
              0x565e91c9f3c25b6052c1ee26a55b161299d9d98d5f462027ee9a85a3365cff,
              0x5f8984f906d5441c391eb22925f43727c64cb6d8d120c7c028480661a0aad9ed,
              0x1d4ae2fa1e3969eff503165d9c0e164de64116fe5a5c53d2febff879f91d02e8,
              0x4074953de31b887e3a09976dab0de96d12fbc1ae87020886a6feb2efc2812870,
              0x5325fda4237781932fab467f84baa0ccd6c742e2ebae5830b29e24393b6bbd41);
    e := Four(at, 0x7fffffffffffffffffffffffffffffffffffffffffffffffffffffffffffffed, 0xf1ba0c491eeef83c49fc1b744331bb096d4893142c187431f7b03e61a75a49, e, true, true, false, false,
              0x5325fda4237781932fab467f84baa0ccd6c742e2ebae5830b29e24393b6bbd41,
              0x6060b090e40d69acee3ed84e02f76fa40ce410c4cf3af4872e284bf464b7ebf3,
              0x666085ad24b2f2dda30823d0e147b54d255a48d44dca7879c43a4beb6437f04,
              0x5cbf708319f71ae6b02c4f3c1f5c85b93278b717b882863c033bd4a8974fef09,
              0x2a5ea2c514438720624e33dedaa9fbe605e55ace3a1e9aac58494d9b1fd482cc);
    e := Four(at, 0x7fffffffffffffffffffffffffffffffffffffffffffffffffffffffffffffed, 0xf1ba0c491eeef83c49fc1b744331bb096d4893142c187431f7b03e61a75a49, e, false, false, false, true,
              0x2a5ea2c514438720624e33dedaa9fbe605e55ace3a1e9aac58494d9b1fd482cc,
              0x6427967fa190c1210d62cdce84c941dff01bedd6cd8b6b8536dfdf292224ab1b,
              0x33932da903b6f4f883d8ac0281a1509642b69d1f9e88c5607420c7e62801d08a,
              0x5e7c4632077fb5e024b9a425abc1b292a8e876460aa1c63e3ef0feaa3c171cb,
              0x6c0eb20c8ed317abdafd170465c91f748f8e5f100184466e411b495fabc9aa39);
    e := Four(at, 0x7fffffffffffffffffffffffffffffffffffffffffffffffffffffffffffffed, 0xf1ba0c491eeef83c49fc1b744331bb096d4893142c187431f7b03e61a75a49, e, true, false, true, false,
              0x6c0eb20c8ed317abdafd170465c91f748f8e5f100184466e411b495fabc9aa39,
              0x6802e818520dd7868199b56365b3dce67be4bbbc6538f37533ae47823af5af44,
              0x47a985ab85613ee9453e2eb9aeffdcb65e219e40f89e9043ec993047c2b7cf7e,
              0x2a0ac36d9fbd71d2df3a4cadd6e98f88f6c762ade33c38e1c63d1915758dbd9,
              0x28367540d567e8cc03c54018a6bcfcc74a761686f5381a0c1ab23ac029d6d760);
    e := Four(at, 0x7fffffffffffffffffffffffffffffffffffffffffffffffffffffffffffffed, 0xf1ba0c491eeef83c49fc1b744331bb096d4893142c187431f7b03e61a75a49, e, true, true, false, true,
              0x28367540d567e8cc03c54018a6bcfcc74a761686f5381a0c1ab23ac029d6d760,
              0x649e0b57ea1bc0d21abf4fb914054c095d611e1c870f0179078e7ce51fe6e376,
              0x3fe4332b65078599a85c651774a1a1fa37ebedfb1c9a00496a5e9b1c0c446c6f,
              0x3db62297261ad2d3d998c218c8ca5e572756b8cbd0eab8a858871d7becf23d0e,
              0x18100f62e51ce4c774066aa84638363a32143223b97da968c57cf8def22821b7);
    e := Four(at, 0x7fffffffffffffffffffffffffffffffffffffffffffffffffffffffffffffed, 0xf1ba0c491eeef83c49fc1b744331bb096d4893142c187431f7b03e61a75a49, e, true, true, true, true,
              0x18100f62e51ce4c774066aa84638363a32143223b97da968c57cf8def22821b7,
              0x181e92a7880faa9e2d4e6cdf31a5bb0b183e15f1f000acef7734f3e3e72032eb,
              0x4e6d7260b1537e825dc893994cc0a0ffd7854bc3ee6687b8827093487ffb3727,
              0x2f5968a4e6f33c4d95cd223919ee34fc4db01a85a35d6f37c0eddb9efb038158,
              0x77c29d3540fd172dbf616ad4b0fb57df65ca9d768f847a9ce2e179347a7f7470);
    e := Four(at, 0x7fffffffffffffffffffffffffffffffffffffffffffffffffffffffffffffed, 0xf1ba0c491eeef83c49fc1b744331bb096d4893142c187431f7b03e61a75a49, e, true, false, false, false,
              0x77c29d3540fd172dbf616ad4b0fb57df65ca9d768f847a9ce2e179347a7f7470,
              0x38f96d9178f90c40c2bec85fa223580382cb67d690d087dca234e40de8baf2cb,
              0x13ab3e86fc4cd5783ec28221bf1d290e75df6129cfb4a0cfcf6e85a75779de75,
              0x73b1d083bafbae88ccf2d90489e38e480c42326f83a7aee065788070e24b20b,
              0x21134695adb30e4f572ae6b7a46ca2ea787d2b502887c9dd6618a850549d5da);
    e := Four(at, 0x7fffffffffffffffffffffffffffffffffffffffffffffffffffffffffffffed, 0xf1ba0c491eeef83c49fc1b744331bb096d4893142c187431f7b03e61a75a49, e, false, false, false, false,
              0x21134695adb30e4f572ae6b7a46ca2ea787d2b502887c9dd6618a850549d5da,
              0x1acfaa4fae8b28554fa8ea5e6a9ff9701013649c12c1d221a3416ce9fcb75a63,
              0x139ea97ea9aaa3c6d9047451ae77412365bb25357b2142016d72a7fdebc86e71,
              0x139f897fa7527cd5228b8fba14dd0b1af0a017dde67b593f2cd9611dad049e1e,
              0x2a25440ed8fe4dc8b6c08632942cb9aa89bfed75b475ff0e6b3693ec46ff4d31);
  }

  lemma PowerP6(at: Powers)
    requires Names(at, 0x7fffffffffffffffffffffffffffffffffffffffffffffffffffffffffffffed, 0xf1ba0c491eeef83c49fc1b744331bb096d4893142c187431f7b03e61a75a49)
    ensures at(0xabaf8c6b094fd0f32c2ccabab864dbecd99144679c1adf804898fb20, 0x7665bdb55a01f0d012e89ecceb440abd6ee8d914c3f3296c8c9b4d3d242f444c)
  {
    PowerP5(at);
    var e: nat := 0xabaf8c6b094fd0f32c2ccabab864dbecd99144679c1adf80;
    e := Four(at, 0x7fffffffffffffffffffffffffffffffffffffffffffffffffffffffffffffed, 0xf1ba0c491eeef83c49fc1b744331bb096d4893142c187431f7b03e61a75a49, e, false, true, false, false,
              0x2a25440ed8fe4dc8b6c08632942cb9aa89bfed75b475ff0e6b3693ec46ff4d31,
              0x623701995db73fa0bb2f44111e759cb1dba4a96a14543776025b1482af588d7c,
              0x5e0c9d13f09097a57f414fa5a04d4f8a4dec605213e9c732df7c1cd2d4d0b1fb,
              0x10228766829c5769728ccdf2982492e5c1d86c585707bd73ee54ab5c2acf180d,
              0x37178aea0bb4d85817ee3f7274bc9efdff85527dcdcb95c0785386941baec09d);
    e := Four(at, 0x7fffffffffffffffffffffffffffffffffffffffffffffffffffffffffffffed, 0xf1ba0c491eeef83c49fc1b744331bb096d4893142c187431f7b03e61a75a49, e, true, false, false, false,
              0x37178aea0bb4d85817ee3f7274bc9efdff85527dcdcb95c0785386941baec09d,
              0x53cba644c6d3ec61124c0d10583438cbeb0ec56e81135ab2c6b982d072614973,
              0x22e7a766b1b29885e4a84b8b8b3e80e04db4ce86c429be706d7d58f4b1277bd3,
              0xc1bc07645516541173e4e301008534c701eb3eb04a3bcd5c77e836df66c70dc,
              0x1ef090a7514b1305121dffd1d17232c7221af7b86d1dc1300d4a7d7c5857e93f);
    e := Four(at, 0x7fffffffffffffffffffffffffffffffffffffffffffffffffffffffffffffed, 0xf1ba0c491eeef83c49fc1b744331bb096d4893142c187431f7b03e61a75a49, e, true, false, false, true,
              0x1ef090a7514b1305121dffd1d17232c7221af7b86d1dc1300d4a7d7c5857e93f,
              0x113aa7bd93e66392711b5defb34db615092fc9052e3f68d03b557cb65ca9389b,
              0x50b82f4da7c8faf8b36a30e336d8a44fa7a59aa3872977f5568ec48c6101ba2d,
              0x77f7d63276c4ce318e09b500c7218a7b94f0c03708ed36d1c0ece9c41e0e00d,
              0x726464dc514497f714acb47ad4872984d9b112756d5d2b1db920dbe02fabd52b);
    e := Four(at, 0x7fffffffffffffffffffffffffffffffffffffffffffffffffffffffffffffed, 0xf1ba0c491eeef83c49fc1b744331bb096d4893142c187431f7b03e61a75a49, e, true, false, false, false,
              0x726464dc514497f714acb47ad4872984d9b112756d5d2b1db920dbe02fabd52b,
              0x355de6543e533591bab9e6fd9baf068c4fb0cb2dbc762eab424f0bab06056382,
              0xd826b69a278e8d0c716157124d06fea88ad392e27133ed4ba3a93c9ea0ad0cd,
              0x59e07f97b59bda285f2c25a8a8a6a17bd3ee10bb9e5ef318d41b8b27f56fa6f5,
              0x43858a89fa780fc32e3e06457787b9c490888baef23175bbca0cabcbed18052e);
    e := Four(at, 0x7fffffffffffffffffffffffffffffffffffffffffffffffffffffffffffffed, 0xf1ba0c491eeef83c49fc1b744331bb096d4893142c187431f7b03e61a75a49, e, true, true, true, true,
              0x43858a89fa780fc32e3e06457787b9c490888baef23175bbca0cabcbed18052e,
              0x13d233c7431f78bf53dd8820456b963d590e98fb3dc14c2061abf2d819233b7a,
              0x3ae5fe9810f4d4e6b6474c1b45f20f34fc2fd326ec54d08ec0cd145a90ac0212,
              0x7084c8be11f1c547ed179a73a3e29cf71e9c8404a4f41390e17d15e2be3491a6,
              0x1e2bef643f7a160377e7dd036a4d6c0642b4dd24b17dbea3ed3b352f889d2c95);
    e := Four(at, 0x7fffffffffffffffffffffffffffffffffffffffffffffffffffffffffffffed, 0xf1ba0c491eeef83c49fc1b744331bb096d4893142c187431f7b03e61a75a49, e, true, false, true, true,
              0x1e2bef643f7a160377e7dd036a4d6c0642b4dd24b17dbea3ed3b352f889d2c95,
              0x5ec98fb5398af6ea109abef46f890f844aafd57050ec756783caece7bf76befb,
              0x630715a1fa4e44247feba27b363642e1d5a5e430bfa4dedda53c25323dee15df,
              0x5bf8654cb1e7f08cec2bada22756bc8c8d08f0acb363954e2ec201fe343ee251,
              0x779804032778e125b8eb79b772d9d7b3e73093f720b7a759309e5e4c8d850ed8);
    e := Four(at, 0x7fffffffffffffffffffffffffffffffffffffffffffffffffffffffffffffed, 0xf1ba0c491eeef83c49fc1b744331bb096d4893142c187431f7b03e61a75a49, e, false, false, true, false,
              0x779804032778e125b8eb79b772d9d7b3e73093f720b7a759309e5e4c8d850ed8,
              0x5f5034269976643cb9d8e03dd57ccd231fa16a66c79d51a66c879583ab67766d,
              0x29d46a557fb5b049ba95c15d2fa1258f1559a69d186ce1e0240b2fb379b455b5,
              0x6beb2e87c09f3ee550f7818cfc8601289022ed61e88a508acf5568b12972c6a2,
              0x3882b53e39915aaf95431c9b8b22fc6fd7560cf728094b67374aab3af58ff0db);
    e := Four(at, 0x7fffffffffffffffffffffffffffffffffffffffffffffffffffffffffffffed, 0xf1ba0c491eeef83c49fc1b744331bb096d4893142c187431f7b03e61a75a49, e, false, false, false, false,
              0x3882b53e39915aaf95431c9b8b22fc6fd7560cf728094b67374aab3af58ff0db,
              0x6bed10843b56bb2e857e985fcd9fcc89d1c3470b4609cb26203fb30c9757bb2c,
              0x4cdd9483e1c4176679fe1de3f96ec39c89a42fade04cd1fe44968cf088c95333,
              0x1b15a4b81accfeacb8c9cd01e307c602ce67ea77c457d5eac6c39c5657225215,
              0x7665bdb55a01f0d012e89ecceb440abd6ee8d914c3f3296c8c9b4d3d242f444c);
  }

  lemma PowerP7(at: Powers)
    requires Names(at, 0x7fffffffffffffffffffffffffffffffffffffffffffffffffffffffffffffed, 0xf1ba0c491eeef83c49fc1b744331bb096d4893142c187431f7b03e61a75a49)
    ensures at(0xabaf8c6b094fd0f32c2ccabab864dbecd99144679c1adf804898fb2042b, 1)
  {
    PowerP6(at);
    var e: nat := 0xabaf8c6b094fd0f32c2ccabab864dbecd99144679c1adf804898fb20;
    e := Four(at, 0x7fffffffffffffffffffffffffffffffffffffffffffffffffffffffffffffed, 0xf1ba0c491eeef83c49fc1b744331bb096d4893142c187431f7b03e61a75a49, e, false, true, false, false,
              0x7665bdb55a01f0d012e89ecceb440abd6ee8d914c3f3296c8c9b4d3d242f444c,
              0x3258e5bf8f5f7cf91f794266ae884d1974047c8efed760827124e03ea240eb8d,
              0x2aeee574e88f830756938e64f44f4c344bce1b27cc1b92306eb01732303e843b,
              0x5f1209051ec62933908d7664864b849a9f313c2be2b918ed4c965f59db23092b,
              0x47006af951dcc9564c5306caeeb65ad2387deb17740fee8e417a965e14051c10);
    e := Four(at, 0x7fffffffffffffffffffffffffffffffffffffffffffffffffffffffffffffed, 0xf1ba0c491eeef83c49fc1b744331bb096d4893142c187431f7b03e61a75a49, e, false, false, true, false,
              0x47006af951dcc9564c5306caeeb65ad2387deb17740fee8e417a965e14051c10,
              0x27499a931c001d7494ea5944699b9bfa6c77d286d14b934792c1faf057c5d695,
              0x6a43f73dfb5f30b83778821eb1927938e545d7908fedd6463dec632c87886fa7,
              0x2987107a3dac6cc34695a6fd0b21776ff1bea4954c894b28062bf5bd9a7f2563,
              0x17785ba81c8ac511a579ed67b34c586a098799305eda0603773275cca20eb457);
    e := Four(at, 0x7fffffffffffffffffffffffffffffffffffffffffffffffffffffffffffffed, 0xf1ba0c491eeef83c49fc1b744331bb096d4893142c187431f7b03e61a75a49, e, true, false, true, true,
              0x17785ba81c8ac511a579ed67b34c586a098799305eda0603773275cca20eb457,
              0x5be0842af386f22659e14cd4374779e2d818ed268a24b8e923d4f1a5bd75b33d,
              0x12ea2b3618cf96277ddcd4ecf82b3a6827c49685349b3bb5a95d3af7f81a569,
              0x369e38bf7aa2d1d7f882b9fa646089b415942ab16dca0f26536f4c93c6254a5a, 1);
  }

  lemma PrimeP()
    ensures IsPrime(0x7fffffffffffffffffffffffffffffffffffffffffffffffffffffffffffffed)
  {
    PrimeQ();
    var at := NameFor(0x7fffffffffffffffffffffffffffffffffffffffffffffffffffffffffffffed, 0xf1ba0c491eeef83c49fc1b744331bb096d4893142c187431f7b03e61a75a49);
    PowerP7(at);
    PrimeBy(at, 0x7fffffffffffffffffffffffffffffffffffffffffffffffffffffffffffffed, 0xabaf8c6b094fd0f32c2ccabab864dbecd99144679c1adf804898fb2042b, 0xf1ba0c491eeef83c49fc1b744331bb096d4893142c187431f7b03e61a75a49, 0x7acaff384090e983b641a51e1df0807078e467d06ab8164555f0f7fd51653bdc, 0xbedc4);
  }

  /** The modulus of the field is a prime. */
  lemma FieldModulusIsPrime()
    ensures IsPrime(Limbs.P)
  {
    PrimeP();
  }
}
