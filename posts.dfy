/**
 * The `Post` model: its content validation and `as_json`, which takes the
 * serialized attribute hash and sets, in order, `images`, `user`,
 * `created_at`, `post_create`, `comments` and `comments_count` on it.
 */
module Posts {
  import opened Wrappers
  import opened Strings
  import opened Json
  import opened Records
  import opened CommentOrder
  import Users

  // ---------------------------------------------------------------------------
  // Validation
  // ---------------------------------------------------------------------------

  /** The error keys Rails records against a post. */
  datatype PostError = ContentBlank | ContentTooLong | UserRequired

  const ContentMaximum := 140

  /**
   * `validates :content, presence: true, length: { maximum: 140 }`, and the
   * author that `belongs_to :user` requires to exist.
   */
  function PostErrors(p: Post): set<PostError>
  {
    (if Blank(p.content) then {ContentBlank} else {})
    + (if Length(p.content) > ContentMaximum then {ContentTooLong} else {})
    + (if p.author.None? then {UserRequired} else {})
  }

  /** The content is accepted iff it is not blank and has at most 140 characters. */
  lemma ContentValidIff(p: Post)
    ensures ContentBlank !in PostErrors(p) && ContentTooLong !in PostErrors(p)
        <==> p.content.Some? && !BlankString(p.content.value) && |p.content.value| <= 140
  {
  }

  /** 140 characters that are not all white space pass; 141 characters never do. */
  lemma ContentLengthBoundary(p: Post, s: string)
    requires p.content == Some(s) && !BlankString(s)
    ensures |s| == 140 ==> ContentBlank !in PostErrors(p) && ContentTooLong !in PostErrors(p)
    ensures |s| == 141 ==> ContentTooLong in PostErrors(p)
  {
  }

  // ---------------------------------------------------------------------------
  // Images: image_data, and the same projection for a comment's images
  // ---------------------------------------------------------------------------

  const ImageKeys: set<string> := {"id", "filename", "content_type", "byte_size", "url"}

  /** One image: its blob metadata and its path-only URL. */
  function ImageEntry(a: Attachment, h: Helpers): (e: Doc)
  {
    map[
      "id" := Num(a.id),
      "filename" := Str(a.filename),
      "content_type" := StrOrNull(a.contentType),
      "byte_size" := Num(a.byteSize),
      "url" := Str(h.blobPath(a))]
  }

  /** `image_data`: one entry per attached image, in attachment order. */
  function ImageData(images: seq<Attachment>, h: Helpers): (r: seq<Value>)
  {
    seq(|images|, i requires 0 <= i < |images| => Obj(ImageEntry(images[i], h)))
  }

  /**
   * Each image entry carries exactly the five image keys: the attachment's
   * id, sanitized filename, content type and size, and the blob's path. The
   * list keeps the attachment order.
   */
  lemma ImageDataShape(images: seq<Attachment>, h: Helpers)
    ensures |ImageData(images, h)| == |images|
    ensures forall i :: 0 <= i < |images| ==>
      var e := ImageData(images, h)[i];
      && e.Obj? && e.fields.Keys == ImageKeys
      && e.fields["id"] == Num(images[i].id)
      && e.fields["filename"] == Str(images[i].filename)
      && e.fields["content_type"] == StrOrNull(images[i].contentType)
      && e.fields["byte_size"] == Num(images[i].byteSize)
      && e.fields["url"] == Str(h.blobPath(images[i]))
  {
  }

  // ---------------------------------------------------------------------------
  // Comments
  // ---------------------------------------------------------------------------

  /** What stops a document from being rendered. */
  datatype RenderError =
    /** `comment.user` is `nil`, so `avatar_image`, called on it for the merged avatar URL, raises. */
    | CommentAuthorMissing(commentId: int)

  const CommentKeys: set<string> := {"id", "content", "created_at", "images", "user"}

  /** The user columns a comment's author sub-document asks for. */
  const CommentAuthorFields: set<string> := {"id", "name"}

  /** The keys of a comment's author sub-document: the two columns and both URL keys. */
  const CommentAuthorKeys: set<string> := CommentAuthorFields + Users.UrlKeys

  /**
   * `comment.user.as_json(only: %i[id name]).merge('avatar_url' => ...)`:
   * the user's own `as_json`, which already carries both attachment URLs,
   * with the avatar URL merged in once more.
   */
  function CommentAuthorDoc(u: User, h: Helpers): Doc
  {
    Merge(Users.AsJson(u, Only(CommentAuthorFields), h), map["avatar_url" := Users.AttachmentUrl(u.avatarImage, h)])
  }

  /** One comment of the `comments` list, written by `u`. */
  function CommentEntry(c: Comment, u: User, h: Helpers): Doc
  {
    map[
      "id" := Num(c.id),
      "content" := StrOrNull(c.content),
      "created_at" := Time(c.createdAt),
      "images" := Arr(ImageData(c.images, h)),
      "user" := Obj(CommentAuthorDoc(u, h))]
  }

  /**
   * The author sub-document of a comment holds the author's id and name and
   * both attachment URLs (the header image URL too, which the user's own
   * `as_json` adds); its `avatar_url` is the author's resolved avatar URL.
   */
  lemma CommentAuthorDocShape(u: User, h: Helpers)
    ensures CommentAuthorDoc(u, h).Keys == CommentAuthorKeys
    ensures CommentAuthorDoc(u, h)["id"] == Num(u.id) && CommentAuthorDoc(u, h)["name"] == StrOrNull(u.name)
    ensures CommentAuthorDoc(u, h)["avatar_url"] == Users.AttachmentUrl(u.avatarImage, h)
    ensures CommentAuthorDoc(u, h)["header_image_url"] == Users.AttachmentUrl(u.headerImage, h)
  {
    CommentAuthorFieldsAreColumns();
    Users.AvatarRemergeRedundant(u, Only(CommentAuthorFields), h);
    Users.AsJsonOnlyKeys(u, CommentAuthorFields, h);
    Users.AsJsonShape(u, Only(CommentAuthorFields), h);
    UserColumnsShape(u);
  }

  lemma CommentAuthorFieldsAreColumns()
    ensures CommentAuthorFields <= UserColumnNames + Users.UrlKeys
    ensures "id" in CommentAuthorFields - Users.UrlKeys && "name" in CommentAuthorFields - Users.UrlKeys
  {
  }

  /**
   * A comment entry has exactly the five comment keys; its `created_at` is
   * the raw timestamp, its `images` the projection of its own images and its
   * `user` the author sub-document.
   */
  lemma CommentEntryShape(c: Comment, u: User, h: Helpers)
    ensures CommentEntry(c, u, h).Keys == CommentKeys
    ensures CommentEntry(c, u, h)["id"] == Num(c.id) && CommentEntry(c, u, h)["content"] == StrOrNull(c.content)
    ensures CommentEntry(c, u, h)["created_at"] == Time(c.createdAt)
    ensures CommentEntry(c, u, h)["images"] == Arr(ImageData(c.images, h))
    ensures CommentEntry(c, u, h)["user"] == Obj(CommentAuthorDoc(u, h))
  {
  }

  /** The position of the first comment without an author, or `|cs|` when every comment has one. */
  function FirstWithoutAuthor(cs: seq<Comment>): (k: nat)
    ensures k <= |cs|
    ensures k < |cs| ==> cs[k].author.None?
    ensures forall i :: 0 <= i < k ==> cs[i].author.Some?
  {
    if cs == [] || cs[0].author.None? then 0 else 1 + FirstWithoutAuthor(cs[1..])
  }

  /**
   * The `comments` list: each comment in the given order rendered as an
   * entry, or the error raised by the first comment without an author.
   */
  function CommentsData(cs: seq<Comment>, h: Helpers): (r: Result<seq<Value>, RenderError>)
  {
    var k := FirstWithoutAuthor(cs);
    if k < |cs| then Err(CommentAuthorMissing(cs[k].id))
    else Ok(seq(|cs|, i requires 0 <= i < |cs| && cs[i].author.Some? => Obj(CommentEntry(cs[i], cs[i].author.value, h))))
  }

  /**
   * The list renders iff every comment has an author, and then holds one
   * entry per comment in the same order; otherwise the error names the first
   * comment without one.
   */
  lemma CommentsDataShape(cs: seq<Comment>, h: Helpers)
    ensures CommentsData(cs, h).Ok? <==> forall i :: 0 <= i < |cs| ==> cs[i].author.Some?
    ensures CommentsData(cs, h).Ok? ==>
      && |CommentsData(cs, h).value| == |cs|
      && forall i :: 0 <= i < |cs| ==> CommentsData(cs, h).value[i] == Obj(CommentEntry(cs[i], cs[i].author.value, h))
    ensures CommentsData(cs, h).Err? ==>
      exists k :: && 0 <= k < |cs| && cs[k].author.None? && CommentsData(cs, h).error == CommentAuthorMissing(cs[k].id)
                  && forall i :: 0 <= i < k ==> cs[i].author.Some?
  {
  }

  // ---------------------------------------------------------------------------
  // as_json
  // ---------------------------------------------------------------------------

  /** The user columns the post's author sub-document asks for. */
  const PostAuthorFields: set<string> := {"name", "id", "user_name", "place", "description", "website", "email", "avatar_url"}

  /** The keys `as_json` sets over the serialized attributes. */
  const ComputedKeys: set<string> := {"images", "user", "created_at", "post_create", "comments", "comments_count"}

  /** The suffix "ago" that follows the humanized elapsed time. */
  const AgoSuffix := "前"

  /** The name of the `I18n.l` format for the absolute creation time. */
  const PostCreateFormat := "post_create"

  /** `user.as_json(only: ...)`; `nil.as_json` is `nil`. */
  function AuthorValue(p: Post, h: Helpers): Value
  {
    match p.author
    case None => Null
    case Some(u) => Obj(Users.AsJson(u, Only(PostAuthorFields), h))
  }

  /** The humanized creation time: the elapsed time in words up to `now`, then "前". */
  function HumanizedCreatedAt(p: Post, h: Helpers): string
  {
    h.timeAgoInWords(p.createdAt, h.now) + AgoSuffix
  }

  /** The computed keys and their values, once the comments have been rendered. */
  function Computed(p: Post, h: Helpers, comments: seq<Value>): Doc
  {
    map[
      "images" := Arr(ImageData(p.images, h)),
      "user" := AuthorValue(p, h),
      "created_at" := Str(HumanizedCreatedAt(p, h)),
      "post_create" := Str(h.localize(p.createdAt, PostCreateFormat)),
      "comments" := Arr(comments),
      "comments_count" := Num(|p.comments|)]
  }

  /** The computed keys carry the values `as_json` gives them. */
  lemma ComputedShape(p: Post, h: Helpers, comments: seq<Value>)
    ensures Computed(p, h, comments).Keys == ComputedKeys
    ensures Computed(p, h, comments)["images"] == Arr(ImageData(p.images, h))
    ensures Computed(p, h, comments)["user"] == AuthorValue(p, h)
    ensures Computed(p, h, comments)["created_at"] == Str(HumanizedCreatedAt(p, h))
    ensures Computed(p, h, comments)["post_create"] == Str(h.localize(p.createdAt, PostCreateFormat))
    ensures Computed(p, h, comments)["comments"] == Arr(comments)
    ensures Computed(p, h, comments)["comments_count"] == Num(|p.comments|)
  {
  }

  /**
   * The post document as one overlay: the serialized attributes with every
   * computed key merged over them, or the error of the comment rendering.
   */
  function PostDocument(p: Post, opts: SerializeOptions, h: Helpers): Result<Doc, RenderError>
  {
    match CommentsData(OrderByCreatedAtDesc(p.comments), h)
    case Err(e) => Err(e)
    case Ok(comments) => Ok(Merge(SerializableHash(PostColumns(p), opts), Computed(p, h, comments)))
  }

  /** Setting the six keys one after another is the same as merging them in one go. */
  lemma SuccessiveSetsAreOverlay(base: Doc, images: Value, user: Value, createdAt: Value,
                                 postCreate: Value, comments: Value, count: Value)
    ensures base["images" := images]["user" := user]["created_at" := createdAt]
                ["post_create" := postCreate]["comments" := comments]["comments_count" := count]
         == Merge(base, map["images" := images, "user" := user, "created_at" := createdAt,
                            "post_create" := postCreate, "comments" := comments, "comments_count" := count])
  {
    var m0: Doc := map[];
    MergeThenSet(base, m0, "images", images);
    var m1 := m0["images" := images];
    MergeThenSet(base, m1, "user", user);
    var m2 := m1["user" := user];
    MergeThenSet(base, m2, "created_at", createdAt);
    var m3 := m2["created_at" := createdAt];
    MergeThenSet(base, m3, "post_create", postCreate);
    var m4 := m3["post_create" := postCreate];
    MergeThenSet(base, m4, "comments", comments);
    var m5 := m4["comments" := comments];
    MergeThenSet(base, m5, "comments_count", count);
    assert Merge(base, m0) == base;
  }

  /**
   * `as_json(options)`: the hash from `super(options)`, updated one key at a
   * time in the order the model sets them; rendering the comments raises
   * before `comments` is set when one of them has no author.
   */
  method AsJson(p: Post, opts: SerializeOptions, h: Helpers) returns (r: Result<Doc, RenderError>)
    ensures r == PostDocument(p, opts, h)
  {
    var hash := SerializableHash(PostColumns(p), opts);
    ghost var base := hash;
    hash := hash["images" := Arr(ImageData(p.images, h))];
    hash := hash["user" := AuthorValue(p, h)];
    hash := hash["created_at" := Str(HumanizedCreatedAt(p, h))];
    hash := hash["post_create" := Str(h.localize(p.createdAt, PostCreateFormat))];
    var comments := CommentsData(OrderByCreatedAtDesc(p.comments), h);
    if comments.Err? {
      return Err(comments.error);
    }
    hash := hash["comments" := Arr(comments.value)];
    hash := hash["comments_count" := Num(|p.comments|)];
    SuccessiveSetsAreOverlay(base, Arr(ImageData(p.images, h)), AuthorValue(p, h), Str(HumanizedCreatedAt(p, h)),
                             Str(h.localize(p.createdAt, PostCreateFormat)), Arr(comments.value), Num(|p.comments|));
    r := Ok(hash);
  }

  // ---------------------------------------------------------------------------
  // Properties of the post document
  // ---------------------------------------------------------------------------

  /** A rendered document is the serialized attributes with the computed keys merged over them. */
  lemma PostDocumentAssembled(p: Post, opts: SerializeOptions, h: Helpers)
    requires PostDocument(p, opts, h).Ok?
    ensures PostDocument(p, opts, h).value
         == Merge(SerializableHash(PostColumns(p), opts), Computed(p, h, CommentsData(OrderByCreatedAtDesc(p.comments), h).value))
  {
  }

  /** Each computed key of a rendered document carries its computed value. */
  lemma PostDocumentComputedValues(p: Post, opts: SerializeOptions, h: Helpers)
    requires PostDocument(p, opts, h).Ok?
    ensures var doc := PostDocument(p, opts, h).value;
            && "images" in doc && doc["images"] == Arr(ImageData(p.images, h))
            && "user" in doc && doc["user"] == AuthorValue(p, h)
            && "created_at" in doc && doc["created_at"] == Str(HumanizedCreatedAt(p, h))
            && "post_create" in doc && doc["post_create"] == Str(h.localize(p.createdAt, PostCreateFormat))
            && "comments" in doc && doc["comments"] == Arr(CommentsData(OrderByCreatedAtDesc(p.comments), h).value)
            && "comments_count" in doc && doc["comments_count"] == Num(|p.comments|)
  {
    var comments := CommentsData(OrderByCreatedAtDesc(p.comments), h).value;
    PostDocumentAssembled(p, opts, h);
    ComputedShape(p, h, comments);
    MergeShape(SerializableHash(PostColumns(p), opts), Computed(p, h, comments));
  }

  /** The document can be rendered iff every comment of the post has an author. */
  lemma PostDocumentOkIff(p: Post, opts: SerializeOptions, h: Helpers)
    ensures PostDocument(p, opts, h).Ok? <==> forall c :: c in p.comments ==> c.author.Some?
  {
    var order := OrderByCreatedAtDesc(p.comments);
    CommentsDataShape(order, h);
    forall c
      ensures c in order <==> c in p.comments
    {
      OrderedSameComments(p.comments, c);
    }
  }

  /**
   * The document's keys are the serialized attributes' keys and the computed
   * keys; a computed key wins over an attribute of the same name, and every
   * other attribute passes through unchanged.
   */
  lemma PostDocumentOverlay(p: Post, opts: SerializeOptions, h: Helpers)
    requires PostDocument(p, opts, h).Ok?
    ensures var doc := PostDocument(p, opts, h).value;
            var base := SerializableHash(PostColumns(p), opts);
            && doc.Keys == base.Keys + ComputedKeys
            && (forall k :: k in base && k !in ComputedKeys ==> doc[k] == base[k] == PostColumns(p)[k])
  {
    var comments := CommentsData(OrderByCreatedAtDesc(p.comments), h).value;
    PostDocumentAssembled(p, opts, h);
    ComputedShape(p, h, comments);
    MergeShape(SerializableHash(PostColumns(p), opts), Computed(p, h, comments));
  }

  /** With no options the id, content and author id of the row pass through. */
  lemma PostDocumentColumns(p: Post, h: Helpers)
    requires PostDocument(p, NoOptions, h).Ok?
    ensures var doc := PostDocument(p, NoOptions, h).value;
            && "id" in doc && doc["id"] == Num(p.id)
            && "content" in doc && doc["content"] == StrOrNull(p.content)
            && "user_id" in doc && doc["user_id"] == Num(p.userId)
  {
    PostDocumentOverlay(p, NoOptions, h);
    PostColumnsShape(p);
    SerializableHashShape(PostColumns(p), NoOptions);
    ColumnsNotComputed();
  }

  lemma ColumnsNotComputed()
    ensures "id" !in ComputedKeys && "content" !in ComputedKeys && "user_id" !in ComputedKeys
  {
  }

  /** `images` has one entry per attached image of the post, in attachment order. */
  lemma PostDocumentImages(p: Post, opts: SerializeOptions, h: Helpers)
    requires PostDocument(p, opts, h).Ok?
    ensures var doc := PostDocument(p, opts, h).value;
            && "images" in doc && doc["images"].Arr? && |doc["images"].items| == |p.images|
            && forall i :: 0 <= i < |p.images| ==> doc["images"].items[i] == Obj(ImageEntry(p.images[i], h))
  {
    PostDocumentComputedValues(p, opts, h);
  }

  /** `comments_count` is the number of the post's comments, and so the length of `comments`. */
  lemma PostDocumentCommentsCount(p: Post, opts: SerializeOptions, h: Helpers)
    requires PostDocument(p, opts, h).Ok?
    ensures var doc := PostDocument(p, opts, h).value;
            && "comments_count" in doc && doc["comments_count"] == Num(|p.comments|)
            && "comments" in doc && doc["comments"].Arr? && |doc["comments"].items| == |p.comments|
  {
    PostDocumentComputedValues(p, opts, h);
    OrderIsPermutation(p.comments);
    CommentsDataShape(OrderByCreatedAtDesc(p.comments), h);
  }

  /**
   * `comments` holds every comment of the post, each as often as the post
   * does, rendered as an entry, newest first: no entry's raw `created_at` is
   * earlier than that of an entry after it.
   */
  lemma PostDocumentCommentsNewestFirst(p: Post, opts: SerializeOptions, h: Helpers)
    requires PostDocument(p, opts, h).Ok?
    ensures var doc := PostDocument(p, opts, h).value;
            var order := OrderByCreatedAtDesc(p.comments);
            && "comments" in doc && doc["comments"].Arr?
            && var items := doc["comments"].items;
            && multiset(order) == multiset(p.comments)
            && |items| == |order|
            && (forall i :: 0 <= i < |items| ==>
                  order[i].author.Some? && items[i] == Obj(CommentEntry(order[i], order[i].author.value, h))
                  && "created_at" in items[i].fields && items[i].fields["created_at"] == Time(order[i].createdAt))
            && (forall i, j :: 0 <= i < j < |items| ==> order[i].createdAt >= order[j].createdAt)
  {
    var order := OrderByCreatedAtDesc(p.comments);
    PostDocumentComputedValues(p, opts, h);
    OrderIsPermutation(p.comments);
    CommentsDataShape(order, h);
    forall i | 0 <= i < |order|
      ensures order[i].author.Some? && CommentEntry(order[i], order[i].author.value, h)["created_at"] == Time(order[i].createdAt)
    {
      CommentEntryShape(order[i], order[i].author.value, h);
    }
  }

  /**
   * The top-level `created_at` is the humanized elapsed time followed by
   * "前", which replaces the raw timestamp of the row (the inequality only
   * says that a humanized string now stands where a timestamp stood);
   * `post_create` is the creation time in the `post_create` format.
   */
  lemma PostDocumentCreatedAt(p: Post, opts: SerializeOptions, h: Helpers)
    requires PostDocument(p, opts, h).Ok?
    ensures var doc := PostDocument(p, opts, h).value;
            && "created_at" in doc && doc["created_at"] == Str(h.timeAgoInWords(p.createdAt, h.now) + "前")
            && doc["created_at"] != PostColumns(p)["created_at"]
            && "post_create" in doc && doc["post_create"] == Str(h.localize(p.createdAt, "post_create"))
  {
    PostDocumentComputedValues(p, opts, h);
  }

  /** The keys of the embedded author document. */
  const PostAuthorKeys: set<string> := PostAuthorFields + Users.UrlKeys

  /**
   * The author sub-document of a post is the author restricted to the
   * allow-list plus both attachment URLs, so the phone number and the
   * birthdate never appear; it is `null` when the post has no author.
   */
  lemma AuthorValueShape(p: Post, h: Helpers)
    ensures p.author.None? ==> AuthorValue(p, h) == Null
    ensures p.author.Some? ==>
              var user, u := AuthorValue(p, h), p.author.value;
              && user.Obj? && user.fields.Keys == PostAuthorKeys
              && "phone" !in user.fields && "birthdate" !in user.fields
              && "name" in user.fields && user.fields["name"] == StrOrNull(u.name)
              && "email" in user.fields && user.fields["email"] == StrOrNull(u.email)
              && "avatar_url" in user.fields && user.fields["avatar_url"] == Users.AttachmentUrl(u.avatarImage, h)
              && "header_image_url" in user.fields
              && user.fields["header_image_url"] == Users.AttachmentUrl(u.headerImage, h)
  {
    if p.author.Some? {
      var u := p.author.value;
      AuthorKeys(u, h);
      PostAuthorKeysRedacted();
      Users.AsJsonShape(u, Only(PostAuthorFields), h);
      UserColumnsShape(u);
    }
  }

  lemma AuthorKeys(u: User, h: Helpers)
    ensures Users.AsJson(u, Only(PostAuthorFields), h).Keys == PostAuthorKeys
  {
    PostAuthorFieldsAreColumns();
    Users.AsJsonOnlyKeys(u, PostAuthorFields, h);
  }

  lemma PostAuthorFieldsAreColumns()
    ensures PostAuthorFields <= UserColumnNames + Users.UrlKeys
  {
  }

  lemma PostAuthorKeysRedacted()
    ensures "phone" !in PostAuthorKeys && "birthdate" !in PostAuthorKeys
    ensures "name" in PostAuthorFields - Users.UrlKeys && "email" in PostAuthorFields - Users.UrlKeys
  {
  }

  /**
   * The embedded `user` of a rendered post never shows the phone number or
   * the birthdate; see `AuthorValueShape` for all it holds.
   */
  lemma PostDocumentUserRedacted(p: Post, opts: SerializeOptions, h: Helpers)
    requires PostDocument(p, opts, h).Ok?
    ensures var user := PostDocument(p, opts, h).value["user"];
            && (p.author.None? <==> user == Null)
            && (user.Obj? ==> user.fields.Keys == PostAuthorKeys && "phone" !in user.fields && "birthdate" !in user.fields)
  {
    PostDocumentComputedValues(p, opts, h);
    AuthorValueShape(p, h);
  }

  /** The rendered images do not depend on the clock. */
  lemma ImageDataClockFree(images: seq<Attachment>, h: Helpers, later: int)
    ensures ImageData(images, h) == ImageData(images, h.(now := later))
  {
    var h2 := h.(now := later);
    assert forall i :: 0 <= i < |images| ==> ImageEntry(images[i], h) == ImageEntry(images[i], h2);
  }

  /** The rendered comments do not depend on the clock. */
  lemma CommentsDataClockFree(cs: seq<Comment>, h: Helpers, later: int)
    ensures CommentsData(cs, h) == CommentsData(cs, h.(now := later))
  {
    var h2 := h.(now := later);
    if FirstWithoutAuthor(cs) == |cs| {
      var r1, r2 := CommentsData(cs, h).value, CommentsData(cs, h2).value;
      forall i | 0 <= i < |cs|
        ensures r1[i] == r2[i]
      {
        var u := cs[i].author.value;
        ImageDataClockFree(cs[i].images, h, later);
        Users.AsJsonClockFree(u, Only(CommentAuthorFields), h, later);
        assert CommentAuthorDoc(u, h) == CommentAuthorDoc(u, h2);
      }
      assert r1 == r2;
    }
  }

  /** Of the computed entries, only the humanized `created_at` reads the clock. */
  lemma ComputedClockFree(p: Post, h: Helpers, cs: seq<Value>, later: int)
    ensures var c1, c2 := Computed(p, h, cs), Computed(p, h.(now := later), cs);
            c1.Keys == c2.Keys && forall k :: k in c1 && k != "created_at" ==> c1[k] == c2[k]
  {
    var h2 := h.(now := later);
    ComputedShape(p, h, cs);
    ComputedShape(p, h2, cs);
    ImageDataClockFree(p.images, h, later);
    if p.author.Some? {
      Users.AsJsonClockFree(p.author.value, Only(PostAuthorFields), h, later);
    }
    assert AuthorValue(p, h) == AuthorValue(p, h2);
  }

  /**
   * Rendering the same post at another moment changes the humanized
   * `created_at` and nothing else.
   */
  lemma PostDocumentOnlyCreatedAtDrifts(p: Post, opts: SerializeOptions, h: Helpers, later: int)
    ensures var d1 := PostDocument(p, opts, h);
            var d2 := PostDocument(p, opts, h.(now := later));
            && d1.Ok? == d2.Ok?
            && (d1.Err? ==> d1 == d2)
            && (d1.Ok? ==> d1.value.Keys == d2.value.Keys
                           && forall k :: k in d1.value && k != "created_at" ==> d1.value[k] == d2.value[k])
  {
    var h2 := h.(now := later);
    var order := OrderByCreatedAtDesc(p.comments);
    CommentsDataClockFree(order, h, later);
    if PostDocument(p, opts, h).Ok? {
      var cs := CommentsData(order, h).value;
      var base := SerializableHash(PostColumns(p), opts);
      PostDocumentAssembled(p, opts, h);
      PostDocumentAssembled(p, opts, h2);
      MergeShape(base, Computed(p, h, cs));
      MergeShape(base, Computed(p, h2, cs));
      ComputedClockFree(p, h, cs, later);
    }
  }

  /**
   * A post with content "hello", no images and no comments, written by a
   * user named "alice", renders with that content, empty `images` and
   * `comments`, a `comments_count` of 0 and the author's name.
   */
  lemma HelloPostScenario(p: Post, u: User, h: Helpers)
    requires p.content == Some("hello") && p.images == [] && p.comments == []
    requires p.author == Some(u) && u.name == Some("alice")
    ensures PostDocument(p, NoOptions, h).Ok?
    ensures var doc := PostDocument(p, NoOptions, h).value;
            && "content" in doc && doc["content"] == Str("hello")
            && "images" in doc && doc["images"] == Arr([])
            && "comments" in doc && doc["comments"] == Arr([])
            && "comments_count" in doc && doc["comments_count"] == Num(0)
            && "user" in doc && doc["user"].Obj? && "name" in doc["user"].fields && doc["user"].fields["name"] == Str("alice")
  {
    assert OrderByCreatedAtDesc(p.comments) == [];
    CommentsDataShape([], h);
    assert ImageData([], h) == [];
    PostDocumentColumns(p, h);
    PostDocumentComputedValues(p, NoOptions, h);
    AuthorValueShape(p, h);
  }
}
