# Posts and users of a short-message service, modelled in Dafny

This project models the two ActiveRecord models at the centre of a small
Rails social application:

- `Post` (`app/models/post.rb`): a post of at most 140 characters, with
  images and comments.
- `User` (`app/models/user.rb`): a user with a name, an email address, a phone
  number, a birthdate, a website, an avatar image and a header image.

For each model it covers the validations, which decide whether a record may
be saved, and `as_json`, which builds the JSON document the API returns.

The Dafny files are:

- `wrappers.dfy`: `Option` and `Result`.
- `strings.dfy`: ActiveSupport's `blank?`, and the character classes the
  validation patterns use.
- `json.dfy`: JSON values, `serializable_hash` with `only:` and `except:`,
  and `Hash#merge`.
- `records.dfy`: the records (user, post, comment and attachment) and the
  attribute hash each database row serializes to. It also holds the Rails
  helpers the models call (URL helpers, `time_ago_in_words`, `I18n.l`),
  passed in as function values.
- `users.dfy`: the user validations and `User#as_json`. The email regular
  expression is given two ways, as a pattern and as a check that does not
  backtrack, and the two are proved equal. The phone regular expression is
  read with Ruby's line anchors.
- `comment_order.dfy`: the `ORDER BY created_at DESC` the comment query
  uses.
- `posts.dfy`: the post validations and `Post#as_json`. `AsJson` is a method
  that updates the hash one key at a time, in the order the model does. It
  is proved equal to the function `PostDocument`, and the properties of the
  document are proved about that function.

A record's validation errors are modelled as the set of error keys Rails
would record; a record is valid when the set is empty. Rendering a saved
post yields the document, or the error that rendering raises.

Three behaviours of the code are easy to misread:

- The phone pattern `/\A\d{10}$|^\d{11}\z/` uses `^` and `$`, which Ruby
  reads as line anchors. On a single line it accepts exactly 10 or 11
  digits. Across lines it also accepts a first line of 10 digits followed
  by anything, or anything followed by a last line of 11 digits
  (`PhoneAcceptsTrailingText`).
- A comment's author sub-document asks `as_json` for id and name, and
  merges `avatar_url` in explicitly. `User#as_json` already merges both
  attachment URLs, whatever `only:` says. So the sub-document also holds
  `header_image_url`, and the explicit avatar merge changes nothing
  (`AvatarRemergeRedundant`).
- A post without an author renders with `"user": null`, because
  `nil.as_json` is `nil`. A comment without an author makes rendering raise,
  modelled as `CommentAuthorMissing`.

## Model

| member | source | states |
|---|---|---|
| Json.SerializableHash | app/models/user.rb:21 | `serializable_hash`: the attribute hash restricted to `only:` when given, otherwise without the `except:` names |
| Json.Merge | app/models/user.rb:22 | `Hash#merge`: both hashes' keys, the right-hand value winning |
| Json.StrOrNull | app/models/user.rb:20-24 | a nullable string column serializes to `null` exactly when it is nil |
| Json.DateOrNull | app/models/user.rb:20-24 | the birthdate column serializes to `null` exactly when it is nil |
| Json.SerializableHashShape | app/models/user.rb:21 | `super(options)` keeps exactly the attributes `only:` allows, or all but `except:`, each with its own value |
| Json.MergeShape | app/models/user.rb:22 | a merge holds every key of both hashes, the merged-in value winning on a shared key |
| Json.MergeAbsorbed | app/models/post.rb:29-31 | merging pairs the hash already holds leaves it unchanged |
| Records.UserColumns | app/models/user.rb:21 | the attribute hash of a user row: the nine user columns over any other columns |
| Records.UserColumnsShape | app/models/user.rb:21 | the user attribute hash holds every user column with the record's value, whatever other columns exist |
| Records.PostColumns | app/models/post.rb:10 | the attribute hash of a post row: id, content, user_id and the raw created_at over any other columns |
| Records.PostColumnsShape | app/models/post.rb:10 | the post attribute hash holds id, content, user_id and the raw created_at |
| Users.EmailPattern | app/models/user.rb:10 | the email regular expression: some '@' and '.' split the whole string into local part, domain and a top-level domain of two or more letters |
| Users.EmailFormat | app/models/user.rb:10 | the same test without backtracking: split at the first '@' and at the last '.' after it |
| Users.IndexOf | app/models/user.rb:10 | the first '@' of the address: nothing before it is an '@' |
| Users.LastIndexOf | app/models/user.rb:10 | the last '.' of the domain: nothing after it is a '.' |
| Users.EmailFormatSound | app/models/user.rb:10 | every address the non-backtracking check accepts matches the email pattern |
| Users.EmailFormatComplete | app/models/user.rb:10 | every split the email pattern can match with is found by the check |
| Users.EmailFormatIsPattern | app/models/user.rb:10 | the check accepts exactly the addresses the pattern matches |
| Users.EmailHasOneAt | app/models/user.rb:10 | an accepted address holds exactly one '@' |
| Users.PhoneFormat | app/models/user.rb:11 | the phone regular expression with Ruby's line anchors: 10 digits then a line end, or a line start then 11 digits ending the string |
| Users.PhoneSingleLine | app/models/user.rb:11 | a phone without a newline is accepted iff it is 10 or 11 ASCII digits |
| Users.PhoneFirstLineAccepted | app/models/user.rb:11 | a first line of 10 digits is accepted whatever follows the newline |
| Users.PhoneLastLineAccepted | app/models/user.rb:11 | a last line of 11 digits is accepted whatever precedes the newline |
| Users.PhoneAcceptedShapes | app/models/user.rb:11 | every accepted phone is all digits of length 10 or 11, or has one of those two multi-line shapes |
| Users.PhoneAcceptsTrailingText | app/models/user.rb:11 | "0901234567\nabc" is accepted though it is not all digits |
| Users.NameErrors | app/models/user.rb:9 | blank name, name over 15 characters (nil measured as 0), name already held by another user |
| Users.EmailErrors | app/models/user.rb:10 | blank email; an email (nil read as "") the format rejects |
| Users.PhoneErrors | app/models/user.rb:11 | blank phone; a phone (nil read as "") the format rejects |
| Users.WebsiteErrors | app/models/user.rb:13 | a website that is neither blank nor a URI |
| Users.UserErrors | app/models/user.rb:9-13 | the union of the five validations' errors, birthdate blank when it is nil |
| Users.NameValidIff | app/models/user.rb:9 | a name passes iff it is present, not blank, at most 15 characters and no other user's name |
| Users.FormatImpliesPresent | app/models/user.rb:10-11 | a string matching the email or phone format is never blank |
| Users.UserValidIff | app/models/user.rb:9-13 | a user passes the validations of lines 9-13 iff the name passes, the email matches, the phone matches, a birthdate is set and the website is blank or a URI |
| Users.AttachmentUrl | app/models/user.rb:35-43 | the URL is null iff nothing is attached; otherwise it starts with "http://localhost:3000/", so its host and port are localhost:3000 |
| Users.AttachmentUrls | app/models/user.rb:28-33 | the two URL keys with the avatar's and the header image's URLs |
| Users.AsJson | app/models/user.rb:20-24 | the serialized attributes with both attachment URLs merged over them |
| Users.AsJsonShape | app/models/user.rb:20-33 | the document holds the filtered columns plus both attachment URLs, whatever `only:` says; every other key is a column with its value |
| Users.AsJsonOnlyKeys | app/models/user.rb:20-24 | with `only:` naming user columns, the keys are exactly those names plus the two URL keys |
| Users.AvatarRemergeRedundant | app/models/post.rb:29-31 | merging the avatar URL again over a user document changes nothing |
| Users.AsJsonClockFree | app/models/user.rb:20-24 | the user document does not depend on the current time |
| CommentOrder.Insert | app/models/post.rb:15 | inserting into a newest-first list gives a newest-first list one longer |
| CommentOrder.InsertAddsOne | app/models/post.rb:15 | insertion adds exactly the one comment |
| CommentOrder.OrderByCreatedAtDesc | app/models/post.rb:15 | the ordered comments are newest first |
| CommentOrder.OrderIsPermutation | app/models/post.rb:15 | ordering keeps every comment as often as before, and the length |
| CommentOrder.OrderedSameComments | app/models/post.rb:15 | a comment is in the ordered list iff it belongs to the post |
| Posts.PostErrors | app/models/post.rb:4-6 | blank content, content over 140 characters (nil measured as 0), missing author |
| Posts.ContentValidIff | app/models/post.rb:6 | content passes iff it is present, not blank and at most 140 characters |
| Posts.ContentLengthBoundary | app/models/post.rb:6 | 140 non-blank characters pass; 141 characters fail the length check |
| Posts.ImageEntry | app/models/post.rb:54-60 | one image as id, filename, content_type, byte_size and its path-only blob URL |
| Posts.ImageData | app/models/post.rb:52-61 | one image entry per attached image, in attachment order |
| Posts.ImageDataShape | app/models/post.rb:52-61 | one entry per image, in order, with exactly id, filename, content_type, byte_size and the blob path |
| Posts.CommentAuthorDoc | app/models/post.rb:29-31 | the author's `as_json(only: id, name)` with the avatar URL merged over it |
| Posts.CommentEntry | app/models/post.rb:16-32 | one comment as id, content, raw created_at, its images and its author document |
| Posts.CommentAuthorDocShape | app/models/post.rb:29-31 | a comment's author document holds exactly id, name, avatar_url and header_image_url, with the author's values |
| Posts.CommentEntryShape | app/models/post.rb:16-32 | a comment entry holds exactly id, content, the raw created_at, its images and its author document |
| Posts.FirstWithoutAuthor | app/models/post.rb:15-33 | the position of the first comment whose author is missing; every earlier comment has one |
| Posts.CommentsData | app/models/post.rb:15-33 | each comment in order rendered as an entry, or the error of the first comment without an author |
| Posts.CommentsDataShape | app/models/post.rb:15-33 | the comments render iff each has an author, one entry per comment in order; otherwise the error names the first comment without one |
| Posts.AuthorValue | app/models/post.rb:12 | the author's `as_json` with the eight allowed names, or null without an author |
| Posts.HumanizedCreatedAt | app/models/post.rb:13 | the elapsed time in words up to now, followed by "前" |
| Posts.Computed | app/models/post.rb:11-34 | the six keys `as_json` sets, with their values |
| Posts.PostDocument | app/models/post.rb:9-36 | the serialized attributes with the six computed keys merged over them, or the comment rendering's error |
| Posts.ComputedShape | app/models/post.rb:11-34 | the six computed keys carry images, author, humanized time, localized time, comments and count |
| Posts.SuccessiveSetsAreOverlay | app/models/post.rb:10-35 | setting the six keys one after another is the same as merging them in one go |
| Posts.AsJson | app/models/post.rb:9-36 | the hash built key by key, or the rendering error, equals `PostDocument` |
| Posts.PostDocumentComputedValues | app/models/post.rb:11-34 | each computed key of a rendered document holds its computed value |
| Posts.PostDocumentOkIff | app/models/post.rb:15-33 | a post renders iff every one of its comments has an author |
| Posts.PostDocumentOverlay | app/models/post.rb:10 | the keys are the attribute keys plus the computed keys; other attributes pass through unchanged |
| Posts.PostDocumentColumns | app/models/post.rb:10 | with no options, id, content and user_id are the row's values |
| Posts.PostDocumentImages | app/models/post.rb:11 | `images` holds one entry per image of the post, in order |
| Posts.PostDocumentCommentsCount | app/models/post.rb:34 | `comments_count` is the number of comments and the length of `comments` |
| Posts.PostDocumentCommentsNewestFirst | app/models/post.rb:15-33 | `comments` renders a permutation of the post's comments, newest first, each with its raw created_at |
| Posts.PostDocumentCreatedAt | app/models/post.rb:13-14 | `created_at` is the humanized elapsed time followed by "前", replacing the raw time; `post_create` is the localized time |
| Posts.AuthorValueShape | app/models/post.rb:12 | the author document is null without an author; otherwise it has exactly the allowed keys plus both URLs, and no phone or birthdate |
| Posts.PostDocumentUserRedacted | app/models/post.rb:12 | `user` is null iff the post has no author, and never shows phone or birthdate |
| Posts.ImageDataClockFree | app/models/post.rb:52-61 | the image entries do not depend on the current time |
| Posts.CommentsDataClockFree | app/models/post.rb:15-33 | the rendered comments do not depend on the current time |
| Posts.ComputedClockFree | app/models/post.rb:11-34 | of the computed keys only `created_at` depends on the current time |
| Posts.PostDocumentOnlyCreatedAtDrifts | app/models/post.rb:9-36 | rendering at another time, with tied comments in the same order, succeeds or fails alike and changes only `created_at` |
| Posts.HelloPostScenario | app/models/post.rb:9-36 | a post "hello" by "alice" without images or comments renders with that content, empty lists, count 0 and the author's name |

## Left out

- `Post#attach_images` (app/models/post.rb:38-48) uploads blobs to storage and attaches them. That is I/O; the model takes a post's attachments as given.
- The Devise and DeviseTokenAuth modules (app/models/user.rb:5-7) are not part of this model. That leaves out the validations they add to a user: `:validatable` checks password presence, length and confirmation, and email presence, uniqueness and format, and DeviseTokenAuth adds its own email checks. Any change they make to the user's serialization is left out too.
- `config/routes.rb` is not part of this model.
- `time_ago_in_words`, `I18n.l`, `rails_blob_url` and the path part of `rails_storage_proxy_url` are opaque function values. Their texts, and how times and dates are spelled out as JSON text, are not modelled.
- Users.AttachmentUrl: the "http://" prefix is the URL helper's default protocol, which the model fixes. The proxy route's path after the host and its '/' is opaque, so the URL is not proved to name the attachment.
- Posts.ImageEntry: `filename` is taken as `ActiveStorage::Filename#to_s` returns it. The sanitizing that produces it is not modelled: stripping, and replacing path separators, control characters and the other unsafe characters with '-'. The image and comment entries (app/models/post.rb:16-27, 54-60) are Ruby hashes with symbol keys. The model gives them string keys, which is how they read only once encoded as JSON.
- Users.WebsiteErrors: `URI::DEFAULT_PARSER.make_regexp` is passed in as a predicate `isUri`, because the URI grammar is not modelled.
- Users.NameErrors: uniqueness is judged against a given set of the other users' names, with exact string equality. The database query, its collation and concurrent saves are left out.
- `dependent: :destroy`, `has_many` and `includes(:user)` only affect deletion and the queries. The model takes a post's comments with their authors already loaded.
- CommentOrder.OrderByCreatedAtDesc: comments with equal timestamps come back in an order the database chooses. The model fixes one such order, and what it states of that order alone is newest-first and the permutation.
- Posts.PostDocumentOnlyCreatedAtDrifts: assumes both renders get tied comments in the same order. Because the model fixes one tie order, two renders have the same `comments`. The database may return tied comments in another order on the second query, and then `comments` can differ too.
- Records.Post: `createdAt` is a saved row's timestamp. On an unsaved post `created_at` is nil, and `as_json` raises in `time_ago_in_words` (and `I18n.l` would raise as well). The model does not represent that, so "renders iff every comment has an author" (`Posts.PostDocumentOkIff`) is about saved posts.
- Posts.PostErrors: `belongs_to :user` is modelled as requiring the loaded author to exist. The foreign key value itself is not checked.
- A missing or corrupted blob record behind an attachment is not modelled; an attachment is either present with its metadata or absent.
