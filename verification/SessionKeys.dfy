/** Session keys of LoRaWAN 1.0.3 section 6.2.5 (and of LoRaWAN 1.1 section 6.2.3 when OptNeg is set). */
module SessionKeys {
  import opened Prelude

  type Block = b: seq<byte> | |b| == 16 witness seq(16, _ => 0)
  type Cipher = Block -> Block

  const TYPE_NWK: byte := 0x01
  const TYPE_APP: byte := 0x02

  type JoinNonce = n: int | 0 <= n < 0x100_0000
  type NetId = n: int | 0 <= n < 0x100_0000
  type Eui = e: seq<byte> | |e| == 8 witness seq(8, _ => 0)

  datatype JoinAccept = JoinAccept(optNeg: bool, joinNonce: JoinNonce, netId: NetId, devAddr: u32)

  /** The three octets of a 24-bit number, least significant first. */
  function Le24(n: int): (b: seq<byte>)
    requires 0 <= n < 0x100_0000
    ensures |b| == 3
  {
    [n % 0x100, n / 0x100 % 0x100, n / 0x1_0000]
  }

  /** The two octets of a 16-bit number, least significant first. */
  function Le16(n: u16): (b: seq<byte>)
    ensures |b| == 2
  {
    [n % 0x100, n / 0x100]
  }

  /** EUI64 values go over the air in reverse order. */
  function Reversed(e: Eui): Eui {
    [e[7], e[6], e[5], e[4], e[3], e[2], e[1], e[0]]
  }

  function Zeros(n: nat): (z: seq<byte>)
    ensures |z| == n
  {
    seq(n, _ => 0)
  }

  /** The plaintext of a session key, before encryption with the device's root key. */
  function KeyBlock(optNeg: bool, typ: byte, netId: NetId, joinEui: Eui, joinNonce: JoinNonce, devNonce: u16): Block {
    if optNeg then
      [typ] + Le24(joinNonce) + Reversed(joinEui) + Le16(devNonce) + Zeros(2)
    else
      [typ] + Le24(joinNonce) + Le24(netId) + Le16(devNonce) + Zeros(7)
  }

  /** Writes `src` over `b[from..from + |src|]`, as the Go builtin of that name. */
  method Copy(b: array<byte>, from: nat, src: seq<byte>)
    requires from + |src| <= b.Length
    modifies b
    ensures b[..] == old(b[..from]) + src + old(b[from + |src|..])
  {
    for i := 0 to |src|
      invariant b[..] == old(b[..from]) + src[..i] + old(b[from + i..])
    {
      b[from + i] := src[i];
    }
  }

  /** Writing over the beginning of a run of zeros. */
  lemma OverZeros(head: seq<byte>, src: seq<byte>, n: nat)
    requires |src| <= n
    ensures var b := head + Zeros(n);
            b[..|head|] + src + b[|head| + |src|..] == head + src + Zeros(n - |src|)
  {
  }

  /** Fills the zeroed sixteen-octet buffer in place and encrypts it. */
  method GetSKey(optNeg: bool, typ: byte, encrypt: Cipher, netId: NetId, joinEui: Eui, joinNonce: JoinNonce, devNonce: u16)
    returns (key: Block)
    ensures key == encrypt(KeyBlock(optNeg, typ, netId, joinEui, joinNonce, devNonce))
  {
    var b := new byte[16](_ => 0);
    b[0] := typ;
    assert b[..] == [typ] + Zeros(15);
    OverZeros([typ], Le24(joinNonce), 15);
    Copy(b, 1, Le24(joinNonce));
    var head := [typ] + Le24(joinNonce);
    assert b[..] == head + Zeros(12);
    if optNeg {
      OverZeros(head, Reversed(joinEui), 12);
      Copy(b, 4, Reversed(joinEui));
      OverZeros(head + Reversed(joinEui), Le16(devNonce), 4);
      Copy(b, 12, Le16(devNonce));
      assert b[..] == head + Reversed(joinEui) + Le16(devNonce) + Zeros(2);
    } else {
      OverZeros(head, Le24(netId), 12);
      Copy(b, 4, Le24(netId));
      OverZeros(head + Le24(netId), Le16(devNonce), 9);
      Copy(b, 7, Le16(devNonce));
      assert b[..] == head + Le24(netId) + Le16(devNonce) + Zeros(7);
    }
    key := encrypt(b[..]);
  }

  function AppSKey(encrypt: Cipher, joinEui: Eui, ja: JoinAccept, devNonce: u16): Block {
    encrypt(KeyBlock(ja.optNeg, TYPE_APP, ja.netId, joinEui, ja.joinNonce, devNonce))
  }

  function NwkSKey(encrypt: Cipher, joinEui: Eui, ja: JoinAccept, devNonce: u16): Block {
    encrypt(KeyBlock(ja.optNeg, TYPE_NWK, ja.netId, joinEui, ja.joinNonce, devNonce))
  }

  ghost predicate Injective(encrypt: Cipher) {
    forall x: Block, y: Block :: encrypt(x) == encrypt(y) ==> x == y
  }

  lemma Le24Injective(m: int, n: int)
    requires 0 <= m < 0x100_0000 && 0 <= n < 0x100_0000
    ensures Le24(m) == Le24(n) <==> m == n
  {
    if Le24(m) == Le24(n) {
      FromLe24(m);
      FromLe24(n);
    }
  }

  lemma FromLe24(n: int)
    requires 0 <= n < 0x100_0000
    ensures n == Le24(n)[0] as int + 0x100 * (Le24(n)[1] as int) + 0x1_0000 * (Le24(n)[2] as int)
  {
    assert n / 0x100 / 0x100 == n / 0x1_0000;
  }

  lemma Le16Injective(m: u16, n: u16)
    ensures Le16(m) == Le16(n) <==> m == n
  {
    if Le16(m) == Le16(n) {
      assert Le16(m)[0] == Le16(n)[0] && Le16(m)[1] == Le16(n)[1];
    }
  }

  lemma ReversedInjective(d: Eui, e: Eui)
    ensures Reversed(d) == Reversed(e) <==> d == e
  {
    if Reversed(d) == Reversed(e) {
      forall k | 0 <= k < 8 ensures d[k] == e[k] {
        assert d[k] == Reversed(d)[7 - k] && e[k] == Reversed(e)[7 - k];
      }
    }
  }

  /** Two blocks of one form are equal exactly when every input that form carries is equal. */
  lemma KeyBlockInjective(optNeg: bool, t: byte, t': byte, net: NetId, net': NetId, eui: Eui, eui': Eui,
                          jn: JoinNonce, jn': JoinNonce, dn: u16, dn': u16)
    ensures KeyBlock(optNeg, t, net, eui, jn, dn) == KeyBlock(optNeg, t', net', eui', jn', dn')
       <==> t == t' && jn == jn' && dn == dn' && (if optNeg then eui == eui' else net == net')
  {
    var b, b' := KeyBlock(optNeg, t, net, eui, jn, dn), KeyBlock(optNeg, t', net', eui', jn', dn');
    Le24Injective(jn, jn');
    Le24Injective(net, net');
    Le16Injective(dn, dn');
    ReversedInjective(eui, eui');
    assert b[0] == t && b[1..4] == Le24(jn) && b'[0] == t' && b'[1..4] == Le24(jn');
    if optNeg {
      assert b[4..12] == Reversed(eui) && b[12..14] == Le16(dn);
      assert b'[4..12] == Reversed(eui') && b'[12..14] == Le16(dn');
    } else {
      assert b[4..7] == Le24(net) && b[7..9] == Le16(dn);
      assert b'[4..7] == Le24(net') && b'[7..9] == Le16(dn');
    }
  }

  /** Whatever the inputs of the two derivations, application and network keys never coincide. */
  lemma AppAndNwkKeysDiffer(encrypt: Cipher, eui: Eui, ja: JoinAccept, dn: u16, ja': JoinAccept, dn': u16)
    requires Injective(encrypt)
    ensures AppSKey(encrypt, eui, ja, dn) != NwkSKey(encrypt, eui, ja', dn')
  {
    assert KeyBlock(ja.optNeg, TYPE_APP, ja.netId, eui, ja.joinNonce, dn)[0]
        != KeyBlock(ja'.optNeg, TYPE_NWK, ja'.netId, eui, ja'.joinNonce, dn')[0];
  }

  /** With the join-accept fixed, each device nonce gives a pair of keys of its own. */
  lemma KeysFollowNonce(encrypt: Cipher, eui: Eui, ja: JoinAccept, dn: u16, dn': u16)
    requires Injective(encrypt)
    ensures AppSKey(encrypt, eui, ja, dn) == AppSKey(encrypt, eui, ja, dn') <==> dn == dn'
    ensures NwkSKey(encrypt, eui, ja, dn) == NwkSKey(encrypt, eui, ja, dn') <==> dn == dn'
  {
    KeyBlockInjective(ja.optNeg, TYPE_APP, TYPE_APP, ja.netId, ja.netId, eui, eui, ja.joinNonce, ja.joinNonce, dn, dn');
    KeyBlockInjective(ja.optNeg, TYPE_NWK, TYPE_NWK, ja.netId, ja.netId, eui, eui, ja.joinNonce, ja.joinNonce, dn, dn');
  }

  /**
   The form bit is not part of the block. Blocks of the two forms coincide exactly when type and join nonce agree, the
   block with OptNeg has nonce zero, and the reversed JoinEUI spells the NetID and the nonce of the other block.
   */
  lemma BlockFormsOverlapIff(t: byte, t': byte, net: NetId, net': NetId, eui: Eui, eui': Eui, jn: JoinNonce, jn': JoinNonce,
                             dn: u16, dn': u16)
    ensures KeyBlock(true, t, net, eui, jn, dn) == KeyBlock(false, t', net', eui', jn', dn')
       <==> t == t' && jn == jn' && dn == 0 && Reversed(eui) == Le24(net') + Le16(dn') + Zeros(3)
  {
    var b, b' := KeyBlock(true, t, net, eui, jn, dn), KeyBlock(false, t', net', eui', jn', dn');
    Le24Injective(jn, jn');
    Le16Injective(dn, 0);
    assert b[0] == t && b[1..4] == Le24(jn) && b[4..12] == Reversed(eui) && b[12..14] == Le16(dn);
    assert b'[0] == t' && b'[1..4] == Le24(jn') && b'[4..12] == Le24(net') + Le16(dn') + Zeros(3) && b'[12..14] == Le16(0);
    assert b == [b[0]] + b[1..4] + b[4..12] + b[12..14] + b[14..16] && b[14..16] == Zeros(2);
    assert b' == [b'[0]] + b'[1..4] + b'[4..12] + b'[12..14] + b'[14..16] && b'[14..16] == Zeros(2);
  }

  /** Such a pair: with OptNeg, JoinEUI 0000000002000001 and nonce 0; without, NetID 1 and nonce 2. */
  lemma BlocksCoincide(net: NetId, eui: Eui, jn: JoinNonce)
    ensures KeyBlock(true, TYPE_APP, net, [0, 0, 0, 0, 2, 0, 0, 1], jn, 0) == KeyBlock(false, TYPE_APP, 1, eui, jn, 2)
  {
    assert Reversed([0, 0, 0, 0, 2, 0, 0, 1]) == Le24(1) + Le16(2) + Zeros(3);
    BlockFormsOverlapIff(TYPE_APP, TYPE_APP, net, 1, [0, 0, 0, 0, 2, 0, 0, 1], eui, jn, jn, 0, 2);
  }
}
