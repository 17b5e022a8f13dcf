/**
 The client's ratchet object and the key agreement of two of them. The primitives are parameters: a
 Diffie-Hellman that commutes, a key derivation, and an authenticated cipher that opens what it sealed.
 */
module Ratchet {
  import opened Wrappers
  import opened Counters

  type Bytes = seq<bv8>
  type Secret = Bytes
  type PublicKey = Bytes
  type Nonce = Bytes

  const KEY_LENGTH := 32

  /** `hkdf` takes the input key material, the info label and the output length. */
  datatype Primitives = Primitives(
    publicOf: Secret -> PublicKey,
    diffieHellman: (Secret, PublicKey) -> Bytes,
    hkdf: (Bytes, string, nat) -> Bytes,
    seal: (Bytes, Nonce, Bytes) -> Bytes,
    open: (Bytes, Nonce, Bytes) -> Option<Bytes>)

  ghost predicate Commutes(c: Primitives) {
    forall a: Secret, b: Secret :: c.diffieHellman(a, c.publicOf(b)) == c.diffieHellman(b, c.publicOf(a))
  }

  ghost predicate FullLength(c: Primitives) {
    forall input: Bytes, info: string, n: nat :: |c.hkdf(input, info, n)| == n
  }

  ghost predicate OpensSealed(c: Primitives) {
    forall k: Bytes, n: Nonce, p: Bytes :: c.open(k, n, c.seal(k, n, p)) == Some(p)
  }

  /** The cipher rejects what another key sealed. */
  ghost predicate RejectsOtherKeys(c: Primitives) {
    forall k: Bytes, k': Bytes, n: Nonce, p: Bytes :: k != k' ==> c.open(k', n, c.seal(k, n, p)) == None
  }

  datatype Keys = Keys(
    rootKey: Bytes,
    sendingChainKey: Bytes,
    receivingChainKey: Bytes,
    sendingRatchetKey: Secret,
    receivingRatchetKey: PublicKey,
    messageNumber: nat,
    prevSendingChainLength: nat,
    prevReceivingChainLength: nat)

  function MessageKey(c: Primitives, chainKey: Bytes): Bytes {
    c.hkdf(chainKey, "message_key", KEY_LENGTH)
  }

  function Derived(c: Primitives, k: Keys, peer: PublicKey): Bytes {
    c.hkdf(k.rootKey + c.diffieHellman(k.sendingRatchetKey, peer), "double_ratchet", 2 * KEY_LENGTH)
  }

  /** One ratchet step: new root and sending chain, a fresh secret, the peer's key. The receiving chain stays. */
  function Stepped(c: Primitives, k: Keys, peer: PublicKey, next: Secret): Keys
    requires FullLength(c)
  {
    k.(rootKey := Derived(c, k, peer)[..KEY_LENGTH],
       sendingChainKey := Derived(c, k, peer)[KEY_LENGTH..],
       sendingRatchetKey := next,
       receivingRatchetKey := peer,
       messageNumber := 0,
       prevSendingChainLength := Increment(k.prevSendingChainLength))
  }

  function Encrypted(c: Primitives, k: Keys, plaintext: Bytes, nonce: Nonce): Bytes {
    c.seal(MessageKey(c, k.sendingChainKey), nonce, plaintext)
  }

  function Decrypted(c: Primitives, k: Keys, ciphertext: Bytes, nonce: Nonce): Option<Bytes> {
    c.open(MessageKey(c, k.receivingChainKey), nonce, ciphertext)
  }

  class DoubleRatchet {
    var rootKey: Bytes
    var sendingChainKey: Bytes
    var receivingChainKey: Bytes
    var sendingRatchetKey: Secret
    var receivingRatchetKey: PublicKey
    var messageNumber: nat
    var prevSendingChainLength: nat
    var prevReceivingChainLength: nat

    function View(): Keys
      reads this
    {
      Keys(rootKey, sendingChainKey, receivingChainKey, sendingRatchetKey, receivingRatchetKey,
           messageNumber, prevSendingChainLength, prevReceivingChainLength)
    }

    constructor (root: Bytes, sending: Bytes, receiving: Bytes, secret: Secret, peer: PublicKey)
      ensures View() == Keys(root, sending, receiving, secret, peer, 0, 0, 0)
    {
      rootKey, sendingChainKey, receivingChainKey := root, sending, receiving;
      sendingRatchetKey, receivingRatchetKey := secret, peer;
      messageNumber, prevSendingChainLength, prevReceivingChainLength := 0, 0, 0;
    }

    /** Encryption and decryption read the chains; neither moves them forward. A matching ratchet opens the result. */
    method Encrypt(c: Primitives, plaintext: Bytes, nonce: Nonce) returns (ciphertext: Bytes)
      ensures ciphertext == Encrypted(c, View(), plaintext, nonce)
      ensures ciphertext == c.seal(c.hkdf(sendingChainKey, "message_key", 32), nonce, plaintext)
      ensures OpensSealed(c) ==> forall to: Keys :: to.receivingChainKey == sendingChainKey ==>
        Decrypted(c, to, ciphertext, nonce) == Some(plaintext)
    {
      var messageKey := MessageKey(c, sendingChainKey);
      ciphertext := c.seal(messageKey, nonce, plaintext);
    }

    /** What another ratchet sealed opens exactly when its sending chain gives this receiving chain's message key. */
    method Decrypt(c: Primitives, ciphertext: Bytes, nonce: Nonce) returns (plaintext: Option<Bytes>)
      ensures plaintext == Decrypted(c, View(), ciphertext, nonce)
      ensures plaintext == c.open(c.hkdf(receivingChainKey, "message_key", 32), nonce, ciphertext)
      ensures OpensSealed(c) && RejectsOtherKeys(c) ==>
        forall from: Keys, text: Bytes :: ciphertext == Encrypted(c, from, text, nonce) ==>
          plaintext == if MessageKey(c, from.sendingChainKey) == MessageKey(c, receivingChainKey) then Some(text)
                       else None
    {
      var messageKey := MessageKey(c, receivingChainKey);
      plaintext := c.open(messageKey, nonce, ciphertext);
    }

    /**
     The receiving chain stays. A peer with the same root that owns the key given here, and steps with the
     key this side had before, arrives at the same root and the same sending chain.
     */
    method PerformRatchetStep(c: Primitives, newReceivingKey: PublicKey, next: Secret)
      requires FullLength(c)
      modifies this
      ensures View() == Stepped(c, old(View()), newReceivingKey, next)
      ensures receivingChainKey == old(receivingChainKey) && prevReceivingChainLength == old(prevReceivingChainLength)
      ensures receivingRatchetKey == newReceivingKey && sendingRatchetKey == next && messageNumber == 0
      ensures prevSendingChainLength == (old(prevSendingChainLength) + 1) % 0x1_0000_0000
      ensures Commutes(c) ==> forall peer: Keys, theirs: Secret ::
        peer.rootKey == old(rootKey) && c.publicOf(peer.sendingRatchetKey) == newReceivingKey ==>
          var there := Stepped(c, peer, c.publicOf(old(sendingRatchetKey)), theirs);
          there.rootKey == rootKey && there.sendingChainKey == sendingChainKey
    {
      var dhSecret := c.diffieHellman(sendingRatchetKey, newReceivingKey);
      var kdfOutput := c.hkdf(rootKey + dhSecret, "double_ratchet", 2 * KEY_LENGTH);
      rootKey := kdfOutput[..KEY_LENGTH];
      sendingChainKey := kdfOutput[KEY_LENGTH..];
      receivingRatchetKey := newReceivingKey;
      sendingRatchetKey := next;
      messageNumber := 0;
      prevSendingChainLength := Increment(prevSendingChainLength);
    }
  }

  // ---------- Two parties ----------

  datatype Pair = Pair(a: Keys, b: Keys)

  /** One round: each side steps with the public key the other had before the round. */
  function Round(c: Primitives, s: Pair, freshA: Secret, freshB: Secret): Pair
    requires FullLength(c)
  {
    Pair(Stepped(c, s.a, c.publicOf(s.b.sendingRatchetKey), freshA),
         Stepped(c, s.b, c.publicOf(s.a.sendingRatchetKey), freshB))
  }

  function Rounds(c: Primitives, s: Pair, secrets: seq<(Secret, Secret)>): Pair
    requires FullLength(c)
  {
    if secrets == [] then s
    else
      var n := |secrets| - 1;
      Round(c, Rounds(c, s, secrets[..n]), secrets[n].0, secrets[n].1)
  }

  /**
   One round keeps equal roots equal and makes the sending chains equal: root and chain are the two
   halves of what both sides derive from the old root and the shared secret.
   */
  lemma RoundAgrees(c: Primitives, s: Pair, freshA: Secret, freshB: Secret)
    requires FullLength(c) && Commutes(c) && s.a.rootKey == s.b.rootKey
    ensures var s' := Round(c, s, freshA, freshB);
      && s'.a.rootKey == s'.b.rootKey && s'.a.sendingChainKey == s'.b.sendingChainKey
      && |s'.a.rootKey| == |s'.a.sendingChainKey| == 32
      && s'.a.receivingRatchetKey == c.publicOf(s.b.sendingRatchetKey) && s'.a.sendingRatchetKey == freshA
      && s'.b.receivingRatchetKey == c.publicOf(s.a.sendingRatchetKey) && s'.b.sendingRatchetKey == freshB
      && s'.a.rootKey + s'.a.sendingChainKey
         == c.hkdf(s.a.rootKey + c.diffieHellman(s.b.sendingRatchetKey, c.publicOf(s.a.sendingRatchetKey)),
                   "double_ratchet", 64)
  {
    assert c.diffieHellman(s.a.sendingRatchetKey, c.publicOf(s.b.sendingRatchetKey))
        == c.diffieHellman(s.b.sendingRatchetKey, c.publicOf(s.a.sendingRatchetKey));
  }

  /**
   After any number of rounds two sides that started from equal roots hold equal roots, and from the
   first round on equal sending chains; each has counted the rounds, as long as the count fits 32 bits;
   and neither receiving chain has moved.
   */
  lemma {:induction false} RoundsAgree(c: Primitives, s: Pair, secrets: seq<(Secret, Secret)>)
    requires FullLength(c) && Commutes(c) && s.a.rootKey == s.b.rootKey
    requires s.a.prevSendingChainLength == s.b.prevSendingChainLength == 0
    ensures var s' := Rounds(c, s, secrets);
      && s'.a.rootKey == s'.b.rootKey
      && (secrets != [] ==> s'.a.sendingChainKey == s'.b.sendingChainKey)
      && s'.a.prevSendingChainLength == s'.b.prevSendingChainLength == Wrapped(|secrets|)
      && s'.a.receivingChainKey == s.a.receivingChainKey && s'.b.receivingChainKey == s.b.receivingChainKey
      && (secrets != [] ==> s'.a.messageNumber == s'.b.messageNumber == 0)
  {
    if secrets != [] {
      var n := |secrets| - 1;
      RoundsAgree(c, s, secrets[..n]);
      RoundAgrees(c, Rounds(c, s, secrets[..n]), secrets[n].0, secrets[n].1);
      WrapsOnce(n);
    }
  }

  /**
   A message opens exactly when the sender's sending chain and the receiver's receiving chain give the
   same message key, whatever was sent or opened in between and in any order.
   */
  lemma DecryptsIff(c: Primitives, from: Keys, to: Keys, plaintext: Bytes, nonce: Nonce)
    requires OpensSealed(c) && RejectsOtherKeys(c)
    ensures Decrypted(c, to, Encrypted(c, from, plaintext, nonce), nonce) == Some(plaintext)
       <==> c.hkdf(from.sendingChainKey, "message_key", 32) == c.hkdf(to.receivingChainKey, "message_key", 32)
  {
  }

  /**
   After one or more rounds the receiving chain is still the first one: a message of the other side
   opens exactly when the agreed sending chain happens to derive that chain's message key.
   */
  lemma RoundsLeaveReceiverBehind(c: Primitives, s: Pair, secrets: seq<(Secret, Secret)>,
                                  plaintext: Bytes, nonce: Nonce)
    requires FullLength(c) && Commutes(c) && OpensSealed(c) && RejectsOtherKeys(c)
    requires s.a.rootKey == s.b.rootKey && s.a.prevSendingChainLength == s.b.prevSendingChainLength == 0
    requires secrets != []
    ensures var s' := Rounds(c, s, secrets);
      Decrypted(c, s'.b, Encrypted(c, s'.a, plaintext, nonce), nonce) == Some(plaintext)
      <==> MessageKey(c, s'.b.sendingChainKey) == MessageKey(c, s.b.receivingChainKey)
  {
    RoundsAgree(c, s, secrets);
    var s' := Rounds(c, s, secrets);
    DecryptsIff(c, s'.a, s'.b, plaintext, nonce);
  }

  // ---------- A conversation ----------

  /** A sealed message, and the chain it was sealed under. */
  datatype Sealed = Sealed(plaintext: Bytes, nonce: Nonce, ciphertext: Bytes, chain: Bytes)

  datatype Opening = Opening(index: nat, result: Option<Bytes>)

  /** `early` counts the messages sealed before the sender's first ratchet step. */
  datatype Talk = Talk(from: Keys, to: Keys, sent: seq<Sealed>, openings: seq<Opening>, stepped: bool, early: nat)

  /** Either side may step with any key; messages arrive in any order, late, repeatedly or never. */
  datatype Event =
    | Send(plaintext: Bytes, nonce: Nonce)
    | Open(index: nat)
    | SenderSteps(peer: PublicKey, next: Secret)
    | ReceiverSteps(peer: PublicKey, next: Secret)

  function Apply(c: Primitives, s: Talk, e: Event): Talk
    requires FullLength(c) && (e.Open? ==> e.index < |s.sent|)
  {
    match e
    case Send(plaintext, nonce) =>
      s.(sent := s.sent + [Sealed(plaintext, nonce, Encrypted(c, s.from, plaintext, nonce), s.from.sendingChainKey)],
         early := if s.stepped then s.early else |s.sent| + 1)
    case Open(i) =>
      s.(openings := s.openings + [Opening(i, Decrypted(c, s.to, s.sent[i].ciphertext, s.sent[i].nonce))])
    case SenderSteps(peer, next) => s.(from := Stepped(c, s.from, peer, next), stepped := true)
    case ReceiverSteps(peer, next) => s.(to := Stepped(c, s.to, peer, next))
  }

  function Run(c: Primitives, from: Keys, to: Keys, es: seq<Event>): Option<Talk>
    requires FullLength(c)
  {
    if es == [] then Some(Talk(from, to, [], [], false, 0))
    else
      var e := es[|es| - 1];
      match Run(c, from, to, es[..|es| - 1])
      case None => None
      case Some(s) => if e.Open? && e.index >= |s.sent| then None else Some(Apply(c, s, e))
  }

  /** What was sealed stays as sealed; the receiving chain stays; each opening tried the first receiving chain. */
  ghost predicate TalkInv(c: Primitives, from: Keys, to: Keys, s: Talk) {
    && s.to.receivingChainKey == to.receivingChainKey
    && (!s.stepped ==> s.from.sendingChainKey == from.sendingChainKey && s.early == |s.sent|)
    && s.early <= |s.sent|
    && (forall i :: 0 <= i < |s.sent| ==>
          && s.sent[i].ciphertext == c.seal(MessageKey(c, s.sent[i].chain), s.sent[i].nonce, s.sent[i].plaintext)
          && (i < s.early ==> s.sent[i].chain == from.sendingChainKey))
    && (forall k :: 0 <= k < |s.openings| ==>
          var o := s.openings[k];
          && o.index < |s.sent|
          && o.result == c.open(MessageKey(c, to.receivingChainKey), s.sent[o.index].nonce, s.sent[o.index].ciphertext))
  }

  lemma {:induction false} RunKeepsTalk(c: Primitives, from: Keys, to: Keys, es: seq<Event>)
    requires FullLength(c) && Run(c, from, to, es).Some?
    ensures TalkInv(c, from, to, Run(c, from, to, es).value)
  {
    if es != [] {
      RunKeepsTalk(c, from, to, es[..|es| - 1]);
    }
  }

  /**
   Through any mix of sends, openings in any order, and ratchet steps of both sides: every message sealed
   before the sender's first step opens, whenever it is tried, if the chains matched at the start.
   */
  lemma {:induction false} EarlyMessagesOpen(c: Primitives, from: Keys, to: Keys, es: seq<Event>)
    requires FullLength(c) && OpensSealed(c) && from.sendingChainKey == to.receivingChainKey
    requires Run(c, from, to, es).Some?
    ensures var s := Run(c, from, to, es).value;
      forall k :: 0 <= k < |s.openings| && s.openings[k].index < s.early ==>
        && s.openings[k].index < |s.sent|
        && s.openings[k].result == Some(s.sent[s.openings[k].index].plaintext)
  {
    RunKeepsTalk(c, from, to, es);
  }

  /** And any message opens exactly when its chain gives the message key of the receiver's first receiving chain. */
  lemma {:induction false} MessageOpensIff(c: Primitives, from: Keys, to: Keys, es: seq<Event>, k: nat)
    requires FullLength(c) && OpensSealed(c) && RejectsOtherKeys(c)
    requires Run(c, from, to, es).Some? && k < |Run(c, from, to, es).value.openings|
    ensures var s := Run(c, from, to, es).value; var o := s.openings[k];
      && o.index < |s.sent|
      && (o.result == Some(s.sent[o.index].plaintext) <==>
            MessageKey(c, s.sent[o.index].chain) == MessageKey(c, to.receivingChainKey))
  {
    RunKeepsTalk(c, from, to, es);
  }
}

/**
 Primitives that satisfy every assumption of the ratchet at once, and a pair of sides with matching
 chains that a single round separates.
 */
module RatchetWitness {
  import opened Wrappers
  import opened Ratchet

  /** The key, with its length written in ones before it. */
  function Header(key: Bytes): Bytes {
    seq(|key|, i => 1 as bv8) + [0] + key
  }

  function Seal(key: Bytes, nonce: Nonce, text: Bytes): Bytes {
    Header(key) + text
  }

  function Unseal(key: Bytes, nonce: Nonce, sealed: Bytes): Option<Bytes> {
    if Header(key) <= sealed then Some(sealed[|Header(key)|..]) else None
  }

  /** Message keys repeat the first byte of their chain; a ratchet step derives ones. */
  function Derive(input: Bytes, info: string, n: nat): Bytes {
    seq(n, i => if info == "message_key" && input != [] then input[0] else 1)
  }

  const TOY := Primitives((s: Secret) => s, (s: Secret, p: PublicKey) => [], Derive, Seal, Unseal)

  lemma HeadersDiffer(a: Bytes, b: Bytes, text: Bytes)
    requires Header(a) <= Header(b) + text
    ensures a == b
  {
    var whole := Header(b) + text;
    assert Header(a)[|a|] == 0 && Header(b)[|b|] == 0;
    assert whole[|a|] == 0 && whole[|b|] == 0;
    assert forall i :: 0 <= i < |a| ==> Header(a)[i] == 1 && whole[i] == 1;
    assert forall i :: 0 <= i < |b| ==> Header(b)[i] == 1 && whole[i] == 1;
    assert |a| == |b|;
    assert a == Header(a)[|a| + 1..] == whole[|a| + 1..2 * |a| + 1] == Header(b)[|b| + 1..] == b;
  }

  lemma ToyIsSound()
    ensures FullLength(TOY) && Commutes(TOY) && OpensSealed(TOY) && RejectsOtherKeys(TOY)
  {
    forall k: Bytes, n: Nonce, p: Bytes ensures TOY.open(k, n, TOY.seal(k, n, p)) == Some(p) {
      assert (Header(k) + p)[|Header(k)|..] == p;
    }
    forall k: Bytes, k': Bytes, n: Nonce, p: Bytes | k != k' ensures TOY.open(k', n, TOY.seal(k, n, p)) == None {
      if Header(k') <= Header(k) + p {
        HeadersDiffer(k', k, p);
      }
    }
  }

  const ZEROS: Bytes := seq(32, i => 0 as bv8)

  const SIDE := Keys(ZEROS, ZEROS, ZEROS, [], [], 0, 0, 0)

  /** Two sides that read each other before a round, and cannot after it. */
  lemma RoundSeparates(plaintext: Bytes, nonce: Nonce)
    ensures FullLength(TOY) && Commutes(TOY) && OpensSealed(TOY) && RejectsOtherKeys(TOY)
    ensures Decrypted(TOY, SIDE, Encrypted(TOY, SIDE, plaintext, nonce), nonce) == Some(plaintext)
    ensures var s := Round(TOY, Pair(SIDE, SIDE), [], []);
      Decrypted(TOY, s.b, Encrypted(TOY, s.a, plaintext, nonce), nonce) == None
  {
    ToyIsSound();
    var s := Round(TOY, Pair(SIDE, SIDE), [], []);
    assert s.a.sendingChainKey[0] == 1;
    assert MessageKey(TOY, s.a.sendingChainKey)[0] == 1;
    assert MessageKey(TOY, s.b.receivingChainKey)[0] == 0;
  }
}
