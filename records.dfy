/**
 * The records the two models read: users, posts, comments and the
 * ActiveStorage attachments hanging off them, and the Rails helpers that the
 * models call but whose workings lie outside them.
 */
module Records {
  import opened Wrappers
  import opened Json

  /**
   * An attached ActiveStorage file, with the blob metadata the documents show.
   * `filename` is the name `ActiveStorage::Filename#to_s` returns, that is the
   * stored name after ActiveStorage's sanitizing.
   */
  datatype Attachment = Attachment(id: int, filename: string, contentType: Option<string>, byteSize: int)

  /** A `has_one_attached` slot: `None` when nothing is attached. */
  type AttachmentSlot = Option<Attachment>

  predicate Attached(slot: AttachmentSlot)
  {
    slot.Some?
  }

  /**
   * A `users` row. The named columns are the ones the validations and the
   * documents talk about; `otherColumns` holds the rest of the row
   * (`created_at`, `uid`, `provider`, ...).
   */
  datatype User = User(
    id: int,
    name: Option<string>,
    email: Option<string>,
    phone: Option<string>,
    birthdate: Option<int>,
    website: Option<string>,
    userName: Option<string>,
    place: Option<string>,
    description: Option<string>,
    otherColumns: Doc,
    avatarImage: AttachmentSlot,
    headerImage: AttachmentSlot)

  /** A `comments` row with its author (`belongs_to :user`, `nil` if the row is gone) and images. */
  datatype Comment = Comment(
    id: int,
    content: Option<string>,
    createdAt: int,
    author: Option<User>,
    images: seq<Attachment>)

  /** A `posts` row with its author, its `has_many_attached :images` in attachment order, and its comments. */
  datatype Post = Post(
    id: int,
    content: Option<string>,
    userId: int,
    createdAt: int,
    otherColumns: Doc,
    author: Option<User>,
    images: seq<Attachment>,
    comments: seq<Comment>)

  /** The attribute hash of a user row, keyed by column name. */
  function UserColumns(u: User): Doc
  {
    u.otherColumns + map[
      "id" := Num(u.id),
      "name" := StrOrNull(u.name),
      "email" := StrOrNull(u.email),
      "phone" := StrOrNull(u.phone),
      "birthdate" := DateOrNull(u.birthdate),
      "website" := StrOrNull(u.website),
      "user_name" := StrOrNull(u.userName),
      "place" := StrOrNull(u.place),
      "description" := StrOrNull(u.description)]
  }

  const UserColumnNames: set<string> :=
    {"id", "name", "email", "phone", "birthdate", "website", "user_name", "place", "description"}

  /** Every named column is in the hash with the record's value, whatever the other columns hold. */
  lemma UserColumnsShape(u: User)
    ensures UserColumnNames <= UserColumns(u).Keys
    ensures UserColumns(u)["id"] == Num(u.id) && UserColumns(u)["name"] == StrOrNull(u.name)
    ensures UserColumns(u)["email"] == StrOrNull(u.email)
    ensures UserColumns(u)["phone"] == StrOrNull(u.phone) && UserColumns(u)["birthdate"] == DateOrNull(u.birthdate)
    ensures UserColumns(u)["website"] == StrOrNull(u.website) && UserColumns(u)["user_name"] == StrOrNull(u.userName)
    ensures UserColumns(u)["place"] == StrOrNull(u.place) && UserColumns(u)["description"] == StrOrNull(u.description)
  {
  }

  /** The attribute hash of a post row; `created_at` is the raw timestamp. */
  function PostColumns(p: Post): Doc
  {
    p.otherColumns + map[
      "id" := Num(p.id),
      "content" := StrOrNull(p.content),
      "user_id" := Num(p.userId),
      "created_at" := Time(p.createdAt)]
  }

  /** The named post columns carry the record's values, whatever the other columns hold. */
  lemma PostColumnsShape(p: Post)
    ensures {"id", "content", "user_id", "created_at"} <= PostColumns(p).Keys
    ensures PostColumns(p)["id"] == Num(p.id) && PostColumns(p)["content"] == StrOrNull(p.content)
    ensures PostColumns(p)["user_id"] == Num(p.userId) && PostColumns(p)["created_at"] == Time(p.createdAt)
  {
  }

  /**
   * The Rails helpers the models call, passed in rather than looked up:
   * `blobPath` is `rails_blob_url(image, only_path: true)`, `proxyPath` the
   * path part of `rails_storage_proxy_url` without its leading '/', `timeAgoInWords(from, to)` is
   * `distance_of_time_in_words`, which `time_ago_in_words` calls with the
   * current time `now`, and `localize` is `I18n.l` with a format name.
   */
  datatype Helpers = Helpers(
    now: int,
    blobPath: Attachment -> string,
    proxyPath: Attachment -> string,
    timeAgoInWords: (int, int) -> string,
    localize: (int, string) -> string)
}
