/** The comment entity and the pure views the runtime derives from the
    comment collection. */
module Comments {
  import opened Wrappers
  import opened Seqs

  /** A timestamp field as the runtime holds it: absent (`undefined`), a
      string that does not parse as a date (its `getTime()` is NaN), or a
      time in milliseconds since the epoch parsed from an ISO-8601 string. */
  datatype Timestamp = Missing | Invalid(raw: string) | At(ms: int)

  /** JavaScript truthiness of a timestamp field: present and not the empty
      string (a parsed ISO-8601 string is never empty). */
  predicate Present(t: Timestamp)
  {
    match t
    case Missing => false
    case Invalid(raw) => raw != ""
    case At(_) => true
  }

  /** One comment. `parentId == ""` marks a root; `slideId` is `None` and
      `createdAt`/`updatedAt` are `Missing` where the record carries
      `undefined`. */
  datatype Comment = Comment(
    id: string,
    parentId: string,
    author: string,
    text: string,
    x: real,
    y: real,
    slideId: Option<string>,
    resolved: bool,
    createdAt: Timestamp,
    updatedAt: Timestamp)

  /** `!c.parentId`. */
  predicate IsRoot(c: Comment) { c.parentId == "" }

  /** `c.updatedAt || c.createdAt`: the time the runtime compares. Only a
      falsy `updatedAt` falls back; an unparseable one is kept. */
  function Stamp(c: Comment): Timestamp
  {
    if Present(c.updatedAt) then c.updatedAt else c.createdAt
  }

  /** Position differences up to this are not "material". */
  const PositionEpsilon: real := 0.01

  function Abs(r: real): real { if r < 0.0 then -r else r }

  /** `commentsAreDifferent`: a missing side always counts as different;
      otherwise text, resolved flag or a coordinate moved by more than the
      epsilon. (Coordinates are always numbers here, so `x || 0` is `x`.) */
  predicate CommentsAreDifferent(a: Option<Comment>, b: Option<Comment>)
  {
    match (a, b)
    case (Some(p), Some(q)) =>
      p.text != q.text || p.resolved != q.resolved
      || Abs(p.x - q.x) > PositionEpsilon || Abs(p.y - q.y) > PositionEpsilon
    case _ => true
  }

  /** The difference test does not care which side is which, and a comment
      never differs from itself or from a copy that only changes fields the
      test ignores (author, timestamps, slide, parent). */
  lemma DifferenceSymmetricAndReflexive(a: Option<Comment>, b: Option<Comment>, c: Comment, d: Comment)
    ensures CommentsAreDifferent(a, b) == CommentsAreDifferent(b, a)
    ensures CommentsAreDifferent(a, None) && CommentsAreDifferent(None, a)
    ensures !CommentsAreDifferent(Some(c), Some(c))
    ensures (d.text == c.text && d.resolved == c.resolved && d.x == c.x && d.y == c.y)
              ==> !CommentsAreDifferent(Some(c), Some(d))
  {
  }

  /** The first comment with the given id, as `Array.prototype.find` returns it. */
  function FindIndex(cs: seq<Comment>, id: string): (r: Option<nat>)
    ensures r.Some? ==> r.value < |cs| && cs[r.value].id == id
                        && forall k :: 0 <= k < r.value ==> cs[k].id != id
    ensures r.None? ==> forall k :: 0 <= k < |cs| ==> cs[k].id != id
  {
    if cs == [] then None
    else if cs[0].id == id then Some(0)
    else match FindIndex(cs[1..], id)
      case None => None
      case Some(k) => Some(k + 1)
  }

  /** The ids present in a collection. */
  function Ids(cs: seq<Comment>): set<string>
  {
    set c | c in cs :: c.id
  }

  // ------------------------------------------------------------ derived views

  /** `rootCommentsForSurface`. */
  function RootCommentsForSurface(cs: seq<Comment>, surfaceId: string): seq<Comment>
  {
    Filter(cs, (c: Comment) => IsRoot(c) && c.slideId == Some(surfaceId))
  }

  /** `repliesFor`. */
  function RepliesFor(cs: seq<Comment>, commentId: string): seq<Comment>
  {
    Filter(cs, (c: Comment) => c.parentId == commentId)
  }

  /** The views keep exactly the matching comments, each as often as it
      occurs and in collection order. */
  lemma ViewsSelectExactly(cs: seq<Comment>, surfaceId: string, rootId: string, c: Comment)
    ensures multiset(RootCommentsForSurface(cs, surfaceId))[c]
              == if IsRoot(c) && c.slideId == Some(surfaceId) then multiset(cs)[c] else 0
    ensures multiset(RepliesFor(cs, rootId))[c] == if c.parentId == rootId then multiset(cs)[c] else 0
    ensures c in RepliesFor(cs, rootId) <==> c in cs && c.parentId == rootId
  {
    FilterCount(cs, (c: Comment) => IsRoot(c) && c.slideId == Some(surfaceId), c);
    FilterCount(cs, (c: Comment) => c.parentId == rootId, c);
    FilterMembership(cs, (c: Comment) => c.parentId == rootId, c);
  }

  /** The `unresolvedCount` memo. */
  function UnresolvedCount(cs: seq<Comment>): nat
  {
    |Filter(cs, (c: Comment) => IsRoot(c) && !c.resolved)|
  }

  /** The `totalRootCount` memo. */
  function TotalRootCount(cs: seq<Comment>): nat
  {
    |Filter(cs, IsRoot)|
  }

  /** The badge logic's facts: no more unresolved roots than roots; the
      total is zero exactly when there is no root; the unresolved count is
      zero exactly when every root is resolved. */
  lemma {:induction false} CountsAgree(cs: seq<Comment>)
    ensures UnresolvedCount(cs) <= TotalRootCount(cs)
    ensures TotalRootCount(cs) == 0 <==> forall c :: c in cs ==> !IsRoot(c)
    ensures UnresolvedCount(cs) == 0 <==> forall c :: c in cs && IsRoot(c) ==> c.resolved
  {
    if cs != [] {
      var init := cs[..|cs| - 1];
      CountsAgree(init);
      assert cs == init + [cs[|cs| - 1]];
    }
  }

  // ----------------------------------------------------------- cascade delete

  /** The collection after deleting `rootId` with its replies:
      `comments().filter(x => x.id !== rootId && x.parentId !== rootId)`. */
  function CascadeDelete(cs: seq<Comment>, rootId: string): seq<Comment>
  {
    Filter(cs, (c: Comment) => c.id != rootId && c.parentId != rootId)
  }

  /** Deleting a root removes exactly the comment with that id and the
      comments whose parent is that id, and keeps every other comment with
      its multiplicity and in its original relative order. */
  lemma CascadeDeleteExactly(cs: seq<Comment>, rootId: string, c: Comment, before: seq<Comment>, after: seq<Comment>)
    ensures multiset(CascadeDelete(cs, rootId))[c]
              == if c.id == rootId || c.parentId == rootId then 0 else multiset(cs)[c]
    ensures c in CascadeDelete(cs, rootId) <==> c in cs && c.id != rootId && c.parentId != rootId
    ensures CascadeDelete(before + after, rootId) == CascadeDelete(before, rootId) + CascadeDelete(after, rootId)
    ensures rootId !in Ids(CascadeDelete(cs, rootId))
  {
    var keep := (c: Comment) => c.id != rootId && c.parentId != rootId;
    FilterCount(cs, keep, c);
    FilterMembership(cs, keep, c);
    FilterConcat(before, after, keep);
  }
}
