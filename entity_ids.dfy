/** Client-side identifiers and timestamps: a kind prefix followed by a short
    random suffix drawn from a 62-letter alphabet, so that optimistic inserts
    have a stable identity before the server confirms them. */
module EntityIds {
  import opened Common

  /** One element of the `Uint8Array` that `crypto.getRandomValues` fills. */
  newtype byte = x: int | 0 <= x < 256

  const Alphabet: string := "0123456789ABCDEFGHIJKLMNOPQRSTUVWXYZabcdefghijklmnopqrstuvwxyz"

  /** Length of the random part of every generated id. */
  const SuffixLength: nat := 10

  /** The keys of `IdPrefixes`. */
  datatype IdKind = UserKind | SpaceKind | GroupKind | BookmarkKind

  function IdPrefix(kind: IdKind): (prefix: string)
    ensures |prefix| > 0 && prefix[|prefix| - 1] == '_'
  {
    match kind
    case UserKind => "user_"
    case SpaceKind => "space_"
    case GroupKind => "group_"
    case BookmarkKind => "bookmark_"
  }

  /** The id `generateRandomId` builds from the random bytes it was given:
      character i is the alphabet letter at `bytes[i] % 62`. */
  function RandomSuffix(bytes: seq<byte>): string {
    seq(|bytes|, i requires 0 <= i < |bytes| => Alphabet[bytes[i] as int % |Alphabet|])
  }

  /** `generateRandomId(size)`, with the random fill of the `size`-byte buffer
      passed in. */
  method GenerateRandomId(bytes: seq<byte>) returns (id: string)
    ensures |id| == |bytes|
    ensures forall i :: 0 <= i < |bytes| ==> id[i] == Alphabet[bytes[i] as int % 62]
    ensures forall i :: 0 <= i < |id| ==> id[i] in Alphabet
    ensures id == RandomSuffix(bytes)
  {
    id := "";
    for i := 0 to |bytes|
      invariant |id| == i
      invariant forall j :: 0 <= j < i ==> id[j] == Alphabet[bytes[j] as int % |Alphabet|]
    {
      id := id + [Alphabet[bytes[i] as int % |Alphabet|]];
    }
  }

  /** The id `generateId(kind)` returns when the random bytes are `bytes`. */
  function IdFor(kind: IdKind, bytes: seq<byte>): string {
    IdPrefix(kind) + RandomSuffix(bytes)
  }

  /** `generateId(kind)`: the kind's prefix followed by ten random letters. */
  method GenerateId(kind: IdKind, bytes: seq<byte>) returns (id: string)
    requires |bytes| == SuffixLength
    ensures |id| == |IdPrefix(kind)| + SuffixLength
    ensures id[..|IdPrefix(kind)|] == IdPrefix(kind)
    ensures forall i :: |IdPrefix(kind)| <= i < |id| ==> id[i] in Alphabet
    ensures id == IdFor(kind, bytes)
  {
    var suffix := GenerateRandomId(bytes);
    id := IdPrefix(kind) + suffix;
  }

  /** No prefix is a prefix of another one. */
  lemma PrefixesAreIndependent(k1: IdKind, k2: IdKind)
    requires k1 != k2
    ensures !(IdPrefix(k1) <= IdPrefix(k2))
  {
    // The four prefixes start with four different letters.
    assert IdPrefix(k1)[0] != IdPrefix(k2)[0];
  }

  /** Ids of different kinds never collide, whatever the random bytes. */
  lemma IdsOfDifferentKindsDiffer(k1: IdKind, k2: IdKind, b1: seq<byte>, b2: seq<byte>)
    requires k1 != k2
    ensures IdFor(k1, b1) != IdFor(k2, b2)
  {
    PrefixesAreIndependent(k1, k2);
    assert IdFor(k1, b1)[0] == IdPrefix(k1)[0];
    assert IdFor(k2, b2)[0] == IdPrefix(k2)[0];
  }

  datatype Timestamps = Timestamps(createdAt: Timestamp, updatedAt: Timestamp)

  /** `createTimestamps()`: both stamps read the same clock value. */
  function CreateTimestamps(now: Timestamp): (t: Timestamps)
    ensures t.createdAt == t.updatedAt == now
  {
    Timestamps(now, now)
  }
}
