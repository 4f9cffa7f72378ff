/** The backend adapter's read path: `list()` accepts a bare array or an
    object with a `value` array, and `mapServerItemsToComments` normalises
    each backend record to the canonical comment shape. The HTTP requests
    themselves are outside the model; their results arrive as `ListResponse`. */
module ServerApi {
  import opened Wrappers
  import opened Seqs
  import opened Strings
  import opened Comments

  /** The backend's `Author` field: absent, a plain string, or a person
      record with optional title, display name and email. */
  datatype AuthorValue =
    | NoAuthor
    | AuthorName(name: string)
    | AuthorRecord(title: Option<string>, displayName: Option<string>, email: Option<string>)

  /** One backend record. Absent fields are `None`; `positionX`/`positionY`
      are the results of `parseFloat`, `None` where it gives NaN. */
  datatype ServerItem = ServerItem(
    commentId: Option<string>,
    listItemId: Option<int>,
    parentId: Option<string>,
    author: AuthorValue,
    commentAuthor: Option<string>,
    commentAuthorLower: Option<string>,
    authorLower: Option<string>,
    commentText: Option<string>,
    positionX: Option<real>,
    positionY: Option<real>,
    slideId: Option<string>,
    resolved: Option<bool>,
    createdAt: Timestamp,
    created: Timestamp,
    updatedAt: Timestamp,
    modified: Timestamp)

  /** The placeholder author name that the adapter overrides. */
  const PlaceholderAuthor: string := "Ludo Fourrage"

  /** JavaScript truthiness of an optional string: present and non-empty. */
  predicate Truthy(s: Option<string>) { s.Some? && s.value != "" }

  /** `a || b` on optional strings. */
  function Or(a: Option<string>, b: Option<string>): Option<string>
  {
    if Truthy(a) then a else b
  }

  /** `a || b` on timestamp fields. */
  function OrStamp(a: Timestamp, b: Timestamp): Timestamp
  {
    if Present(a) then a else b
  }

  /** `item.Author`, with a person record reduced to
      `Title || DisplayName || Email || ''`. */
  function PrimaryAuthor(a: AuthorValue): Option<string>
  {
    match a
    case NoAuthor => None
    case AuthorName(n) => Some(n)
    case AuthorRecord(t, d, e) => Some(Or(t, Or(d, e)).GetOr(""))
  }

  /** The author rule: the primary name unless it is missing, empty or the
      placeholder, in which case `CommentAuthor || commentauthor || author || ''`. */
  function ResolveAuthor(item: ServerItem): (r: string)
    ensures Truthy(PrimaryAuthor(item.author)) && PrimaryAuthor(item.author).value != PlaceholderAuthor
            ==> r == PrimaryAuthor(item.author).value
    ensures !(Truthy(PrimaryAuthor(item.author)) && PrimaryAuthor(item.author).value != PlaceholderAuthor)
            ==> r == Or(item.commentAuthor, Or(item.commentAuthorLower, item.authorLower)).GetOr("")
    ensures r != PlaceholderAuthor || item.commentAuthor == Some(PlaceholderAuthor)
            || (!Truthy(item.commentAuthor) && item.commentAuthorLower == Some(PlaceholderAuthor))
            || (!Truthy(item.commentAuthor) && !Truthy(item.commentAuthorLower) && item.authorLower == Some(PlaceholderAuthor))
  {
    var primary := PrimaryAuthor(item.author);
    if !Truthy(primary) || primary.value == PlaceholderAuthor then
      Or(item.commentAuthor, Or(item.commentAuthorLower, item.authorLower)).GetOr("")
    else primary.value
  }

  /** `item.CommentId || item.ID?.toString()`. */
  function ResolveId(item: ServerItem): (r: Option<string>)
    ensures r.Some? ==> r.value != ""
    ensures r.None? <==> !Truthy(item.commentId) && item.listItemId.None?
  {
    if Truthy(item.commentId) then item.commentId
    else if item.listItemId.Some? then Some(IntToString(item.listItemId.value))
    else None
  }

  /** The canonical comment for one backend record (an unresolvable id
      becomes the empty, falsy id). */
  function Normalize(item: ServerItem): Comment
  {
    Comment(
      ResolveId(item).GetOr(""),
      Or(item.parentId, Some("")).GetOr(""),
      ResolveAuthor(item),
      Or(item.commentText, Some("")).GetOr(""),
      item.positionX.GetOr(0.0),
      item.positionY.GetOr(0.0),
      if Truthy(item.slideId) then item.slideId else None,
      item.resolved.GetOr(false),
      OrStamp(item.createdAt, item.created),
      OrStamp(item.updatedAt, OrStamp(item.modified, OrStamp(item.createdAt, item.created))))
  }

  predicate HasId(c: Comment) { c.id != "" }

  predicate Identified(item: ServerItem) { ResolveId(item).Some? }

  /** `mapServerItemsToComments`: normalise, then drop records without an id. */
  function MapServerItemsToComments(items: seq<ServerItem>): seq<Comment>
  {
    Filter(Map(items, Normalize), HasId)
  }

  /** Exactly the records with a resolvable id survive, in order, and every
      surviving comment has a non-empty id, a non-missing author string and
      an updated-at time whenever the record carried any of its four times. */
  lemma {:induction false} MapServerItemsKeepsIdentified(items: seq<ServerItem>)
    ensures MapServerItemsToComments(items) == Map(Filter(items, Identified), Normalize)
    ensures forall c :: c in MapServerItemsToComments(items) ==> c.id != ""
    ensures forall c :: c in MapServerItemsToComments(items) ==> (Present(c.createdAt) ==> Present(c.updatedAt))
  {
    if items != [] {
      var init, last := items[..|items| - 1], items[|items| - 1];
      MapServerItemsKeepsIdentified(init);
      assert items == init + [last];
      MapConcat(init, [last], Normalize);
      assert Map([last], Normalize) == [Normalize(last)];
      FilterConcat(Map(init, Normalize), [Normalize(last)], HasId);
      FilterConcat(init, [last], Identified);
      MapConcat(Filter(init, Identified), Filter([last], Identified), Normalize);
      if Identified(last) {
        assert Filter([last], Identified) == [last];
        assert Map([last], Normalize) == [Normalize(last)];
      } else {
        assert Filter([last], Identified) == [];
      }
    }
  }

  /** The decoded JSON body of the read endpoint: a falsy value (`null`,
      `false`, `0` or `""`), another scalar (a non-empty string, a non-zero
      number or `true`), an array, or an object whose `value` is an array or
      is something else (absent, falsy or not an array). Array entries are
      `None` where the entry is `null`; any other entry without the backend's
      fields is a record whose fields are all absent. */
  datatype Payload =
    | FalsyPayload
    | ScalarPayload
    | ArrayPayload(entries: seq<Option<ServerItem>>)
    | ObjectPayload(value: Option<seq<Option<ServerItem>>>)

  /** A record as an array entry. */
  function Entry(item: ServerItem): Option<ServerItem> { Some(item) }

  /** The records of an array that `.map` reads field by field: `item.Author`
      throws on a `null` entry, so one `null` entry fails the whole read. */
  function {:induction false} Records(entries: seq<Option<ServerItem>>): (r: Option<seq<ServerItem>>)
    ensures r.Some? <==> forall i :: 0 <= i < |entries| ==> entries[i].Some?
    ensures r.Some? ==> |r.value| == |entries| && forall i :: 0 <= i < |entries| ==> entries[i] == Some(r.value[i])
  {
    if entries == [] then Some([])
    else match (Records(entries[..|entries| - 1]), entries[|entries| - 1])
      case (Some(init), Some(last)) => Some(init + [last])
      case _ => None
  }

  /** What the read request produced. */
  datatype ListResponse = NetworkError | HttpError(status: int) | MalformedJson | Received(payload: Payload)

  /** What `remote.list()` resolves or rejects with. */
  datatype ListOutcome = Listed(comments: seq<Comment>) | ListFailed

  /** `data?.value || data || []`, then `.map`: a falsy body lists nothing;
      a scalar, or an object without a `value` array, has no `map` method, so
      the read fails; an array with a `null` entry fails too. */
  function ItemsOf(p: Payload): Option<seq<ServerItem>>
  {
    match p
    case FalsyPayload => Some([])
    case ScalarPayload => None
    case ArrayPayload(entries) => Records(entries)
    case ObjectPayload(Some(entries)) => Records(entries)
    case ObjectPayload(None) => None
  }

  /** `remote.list()`: a failed request or an unusable body rejects; any
      other body lists its normalised records. */
  function RemoteList(response: ListResponse): (r: ListOutcome)
    ensures r.Listed? <==> response.Received? && ItemsOf(response.payload).Some?
    ensures r.Listed? ==> r.comments == MapServerItemsToComments(ItemsOf(response.payload).value)
    ensures r.Listed? ==> forall c :: c in r.comments ==> c.id != ""
  {
    if response.Received? && ItemsOf(response.payload).Some? then
      MapServerItemsKeepsIdentified(ItemsOf(response.payload).value);
      Listed(MapServerItemsToComments(ItemsOf(response.payload).value))
    else ListFailed
  }

  /** An array whose entries are all records reads back as those records. */
  lemma {:induction false} RecordsOfEntries(items: seq<ServerItem>)
    ensures Records(Map(items, Entry)) == Some(items)
  {
    if items != [] {
      var init, last := items[..|items| - 1], items[|items| - 1];
      RecordsOfEntries(init);
      var entries := Map(items, Entry);
      assert entries == Map(init, Entry) + [Some(last)];
      assert entries[..|entries| - 1] == Map(init, Entry);
      assert items == init + [last];
    }
  }

  /** The read endpoint's two response shapes list the same comments; a
      falsy body lists none; a scalar body, an object without `value` and an
      array holding a `null` entry fail the read. */
  lemma ListAcceptsBothShapes(items: seq<ServerItem>, entries: seq<Option<ServerItem>>)
    ensures RemoteList(Received(ArrayPayload(Map(items, Entry)))) == RemoteList(Received(ObjectPayload(Some(Map(items, Entry)))))
                                                              == Listed(MapServerItemsToComments(items))
    ensures RemoteList(Received(FalsyPayload)) == Listed([])
    ensures RemoteList(Received(ScalarPayload)) == ListFailed
    ensures RemoteList(Received(ObjectPayload(None))) == ListFailed
    ensures None in entries ==> RemoteList(Received(ArrayPayload(entries))) == ListFailed
  {
    RecordsOfEntries(items);
  }
}
