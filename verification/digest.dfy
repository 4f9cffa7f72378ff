/** `computeCommentsHash`: the comparison digest the sync engine uses to
    decide whether the server's snapshot or the merged collection changed. */
module Digest {
  import opened Wrappers
  import opened Seqs
  import opened Strings
  import opened Comments

  /** `${c.updatedAt || c.createdAt}`: "undefined" when both are missing,
      an unparseable string as it stands. */
  function StampText(c: Comment): string
  {
    match Stamp(c)
    case Missing => "undefined"
    case Invalid(raw) => raw
    case At(t) => IntToString(t)
  }

  /** The per-comment key `${id}:${stamp}:${text.length}:${resolved}`. */
  function HashKey(c: Comment): string
  {
    c.id + ":" + StampText(c) + ":" + NatToString(|c.text|) + ":" + (if c.resolved then "true" else "false")
  }

  /** The keys, sorted, joined with "|". */
  function ComputeCommentsHash(cs: seq<Comment>): string
  {
    Join(SortStrings(Map(cs, HashKey)), "|")
  }

  /** The digest of a collection does not depend on the order of its
      comments, only on which comments (with multiplicity) it holds. */
  lemma CommentsHashOrderIndependent(a: seq<Comment>, b: seq<Comment>)
    requires multiset(a) == multiset(b)
    ensures ComputeCommentsHash(a) == ComputeCommentsHash(b)
  {
    MapMultiset(a, b, HashKey);
    SortStringsOrderIndependent(Map(a, HashKey), Map(b, HashKey));
  }

  /** The digest of an empty snapshot is the empty string, the engine's
      initial "last observed digest". */
  lemma EmptyHash()
    ensures ComputeCommentsHash([]) == ""
  {
  }

  /** A one-comment collection's digest is that comment's key. */
  lemma SingletonHash(c: Comment)
    ensures ComputeCommentsHash([c]) == HashKey(c)
  {
    assert Map([c], HashKey) == [HashKey(c)];
  }

  /** Two comments whose resolved flags differ have different keys: the key
      ends in "true" for one and in "alse" for the other. */
  lemma HashKeySeesResolved(a: Comment, b: Comment)
    requires a.resolved && !b.resolved
    ensures HashKey(a) != HashKey(b)
  {
    var ka, kb := HashKey(a), HashKey(b);
    assert ka[|ka| - 4..] == "true";
    assert kb[|kb| - 4..] == "alse";
  }
}
