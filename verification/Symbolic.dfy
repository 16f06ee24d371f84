/**
 * Ideal primitives. Keys are free terms, X25519 is symmetric over key names, and a box
 * opens exactly under the key, session tag and header it was sealed with.
 */
module Symbolic {
  import opened Common
  import opened Ratchet

  /** `Gen` keys come from the generator; the others are whatever a peer may present. */
  datatype Pub = Gen(name: nat) | Alien(id: nat) | LowOrder(id: nat)

  datatype Key =
    | Seed(id: nat)
    | Tag(id: nat)
    | Pair(lo: nat, hi: nat)
    | Foreign(name: nat, id: nat)
    | Root(prev: Key, dh: Key)
    | Chain(root: Key, dh: Key)
    | Nil
    | Follow(chain: Key)
    | Msg(chain: Key)

  datatype Box =
    | Sealed(key: Key, tag: Key, header: Header<Pub>, padded: bytes)
    | Garbage(id: nat)

  function Agree(name: nat, peer: Pub): Option<Key> {
    match peer
    case Gen(other) => Some(if name <= other then Pair(name, other) else Pair(other, name))
    case Alien(id) => Some(Foreign(name, id))
    case LowOrder(_) => None
  }

  function OrNil(chain: Option<Key>): Key {
    if chain.Some? then chain.value else Nil
  }

  function OpenBox(key: Key, tag: Key, h: Header<Pub>, box: Box): Option<bytes> {
    if box.Sealed? && box.key == key && box.tag == tag && box.header == h then Some(box.padded) else None
  }

  const SYM: Suite<Key, Pub, Box> := Suite(
    name => Gen(name),
    (name, peer) => Agree(name, peer),
    (root, dh) => Root(root, dh),
    (root, dh) => Chain(root, dh),
    chain => Follow(OrNil(chain)),
    chain => Msg(OrNil(chain)),
    (key, tag, h, padded) => Sealed(key, tag, h, padded),
    (key, tag, h, box) => OpenBox(key, tag, h, box))

  /** How many root steps lie behind a root key. */
  function Depth(k: Key): nat {
    match k case Root(prev, _) => 1 + Depth(prev) case _ => 0
  }

  /** The depth of the root a chain or message key was derived from; -1 for the nil chain. */
  function BaseDepth(k: Key): int {
    match k
    case Follow(c) => BaseDepth(c)
    case Msg(c) => BaseDepth(c)
    case Chain(root, _) => Depth(root)
    case _ => -1
  }

  /** Parity of the root chain at a root key. */
  predicate OddRoot(k: Key) {
    match k case Root(prev, _) => !OddRoot(prev) case _ => false
  }

  /** Parity of the root a chain or message key was derived from; the nil chain is odd. */
  predicate OddBase(k: Key) {
    match k
    case Follow(c) => OddBase(c)
    case Msg(c) => OddBase(c)
    case Chain(root, _) => OddRoot(root)
    case _ => true
  }

  /** The position of a chain or message key within its chain. */
  function Index(k: Key): nat {
    match k
    case Follow(c) => 1 + Index(c)
    case Msg(c) => Index(c)
    case _ => 0
  }
}
