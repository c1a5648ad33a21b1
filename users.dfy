/**
 * The `User` model: the validations on its columns and `as_json`, which
 * overlays the resolved avatar and header image URLs on the serialized
 * attribute hash.
 */
module Users {
  import opened Wrappers
  import opened Strings
  import opened Json
  import opened Records

  // ---------------------------------------------------------------------------
  // Email: /\A[a-zA-Z0-9._%+-]+@[a-zA-Z0-9.-]+\.[a-zA-Z]{2,}\z/
  // ---------------------------------------------------------------------------

  /** `[a-zA-Z0-9._%+-]` */
  predicate IsLocalChar(c: char)
  {
    IsAsciiLetter(c) || IsDigit(c) || c == '.' || c == '_' || c == '%' || c == '+' || c == '-'
  }

  /** `[a-zA-Z0-9.-]` */
  predicate IsDomainChar(c: char)
  {
    IsAsciiLetter(c) || IsDigit(c) || c == '.' || c == '-'
  }

  predicate AllLocal(s: string)
  {
    forall i :: 0 <= i < |s| ==> IsLocalChar(s[i])
  }

  predicate AllDomain(s: string)
  {
    forall i :: 0 <= i < |s| ==> IsDomainChar(s[i])
  }

  /**
   * One way the email pattern can match the whole of `s`: the '@' at `at`
   * and the '.' before the top-level domain at `dot`, with a non-empty local
   * part, a non-empty domain and a top-level domain of two or more letters.
   */
  predicate EmailSplit(s: string, at: int, dot: int)
  {
    && 0 < at && at + 1 < dot && dot + 3 <= |s|
    && s[at] == '@' && s[dot] == '.'
    && AllLocal(s[..at]) && AllDomain(s[at + 1..dot]) && AllAsciiLetters(s[dot + 1..])
  }

  /** The email pattern read as a regular expression: some split of `s` matches it. */
  ghost predicate EmailPattern(s: string)
  {
    exists at, dot :: EmailSplit(s, at, dot)
  }

  /** The first position of `c` in `s`, or `|s|` when there is none. */
  function IndexOf(s: string, c: char): (i: nat)
    ensures i <= |s|
    ensures i < |s| ==> s[i] == c
    ensures forall j :: 0 <= j < i ==> s[j] != c
  {
    if s == [] then 0
    else if s[0] == c then 0
    else 1 + IndexOf(s[1..], c)
  }

  /** The last position of `c` in `s`, or -1 when there is none. */
  function LastIndexOf(s: string, c: char): (i: int)
    ensures -1 <= i < |s|
    ensures 0 <= i ==> s[i] == c
    ensures forall j :: i < j < |s| ==> s[j] != c
  {
    if s == [] then -1
    else if s[|s| - 1] == c then |s| - 1
    else LastIndexOf(s[..|s| - 1], c)
  }

  /**
   * The email format check without backtracking: neither the local part nor
   * the domain may hold an '@', so the split is at the first '@'; the
   * top-level domain holds no '.', so it starts after the last '.'.
   */
  function EmailFormat(s: string): bool
  {
    var at := IndexOf(s, '@');
    && 0 < at < |s| && AllLocal(s[..at])
    && var rest := s[at + 1..];
       var dot := LastIndexOf(rest, '.');
       && 0 < dot && dot + 3 <= |rest|
       && AllDomain(rest[..dot]) && AllAsciiLetters(rest[dot + 1..])
  }

  /** Whatever the check accepts, the pattern matches. */
  lemma EmailFormatSound(s: string)
    requires EmailFormat(s)
    ensures EmailPattern(s)
  {
    var at := IndexOf(s, '@');
    var rest := s[at + 1..];
    var dot := LastIndexOf(rest, '.');
    assert s[at + 1..at + 1 + dot] == rest[..dot];
    assert s[at + 1 + dot + 1..] == rest[dot + 1..];
    assert EmailSplit(s, at, at + 1 + dot);
  }

  /** Whatever split the pattern matches with, the check finds it. */
  lemma EmailFormatComplete(s: string, a: int, d: int)
    requires EmailSplit(s, a, d)
    ensures EmailFormat(s)
  {
    var at := IndexOf(s, '@');
    assert forall j :: 0 <= j < a ==> s[j] == s[..a][j] && s[j] != '@';
    assert at == a;
    var rest := s[a + 1..];
    var dot := LastIndexOf(rest, '.');
    assert rest[d - a - 1] == '.';
    assert forall j :: d - a - 1 < j < |rest| ==> rest[j] == s[d + 1..][j - (d - a)] && rest[j] != '.';
    assert dot == d - a - 1;
    assert rest[..dot] == s[a + 1..d];
    assert rest[dot + 1..] == s[d + 1..];
  }

  /** The check accepts exactly the strings the pattern matches. */
  lemma EmailFormatIsPattern(s: string)
    ensures EmailFormat(s) <==> EmailPattern(s)
  {
    if EmailFormat(s) {
      EmailFormatSound(s);
    }
    if EmailPattern(s) {
      var a, d :| EmailSplit(s, a, d);
      EmailFormatComplete(s, a, d);
    }
  }

  /** An accepted email holds exactly one '@'. */
  lemma EmailHasOneAt(s: string)
    requires EmailPattern(s)
    ensures exists i :: 0 <= i < |s| && s[i] == '@'
    ensures forall i, j :: 0 <= i < |s| && 0 <= j < |s| && s[i] == '@' && s[j] == '@' ==> i == j
  {
    var a, d :| EmailSplit(s, a, d);
    forall i | 0 <= i < |s| && i != a
      ensures s[i] != '@'
    {
      if i < a {
        assert s[i] == s[..a][i];
      } else if i < d {
        assert s[i] == s[a + 1..d][i - a - 1];
      } else if d < i {
        assert s[i] == s[d + 1..][i - d - 1];
      }
    }
  }

  // ---------------------------------------------------------------------------
  // Phone: /\A\d{10}$|^\d{11}\z/, where `^` and `$` are Ruby's line anchors
  // ---------------------------------------------------------------------------

  /** Ruby's `^`: the start of the string or just after a newline. */
  predicate LineStart(s: string, i: int)
  {
    i == 0 || (0 < i <= |s| && s[i - 1] == '\n')
  }

  /** Ruby's `$`: the end of the string or just before a newline. */
  predicate LineEnd(s: string, i: int)
  {
    i == |s| || (0 <= i < |s| && s[i] == '\n')
  }

  /**
   * The phone pattern read as a regular expression searched for anywhere in
   * `s`: the first alternative is pinned to the start by `\A`, the second to
   * the end by `\z`, so each has only one place where it can match.
   */
  predicate PhoneFormat(s: string)
  {
    || (10 <= |s| && AllDigits(s[..10]) && LineEnd(s, 10))
    || (11 <= |s| && LineStart(s, |s| - 11) && AllDigits(s[|s| - 11..]))
  }

  /** On a single line the pattern means what it says: 10 or 11 digits. */
  lemma PhoneSingleLine(s: string)
    requires '\n' !in s
    ensures PhoneFormat(s) <==> AllDigits(s) && (|s| == 10 || |s| == 11)
  {
    if PhoneFormat(s) {
      assert forall i :: 0 <= i < |s| ==> s[i] != '\n';
      if 10 <= |s| && AllDigits(s[..10]) && LineEnd(s, 10) {
        assert s == s[..10];
      } else {
        assert s == s[|s| - 11..];
      }
    }
    if AllDigits(s) && |s| == 10 {
      assert AllDigits(s[..10]) by {
        assert s[..10] == s;
      }
    }
    if AllDigits(s) && |s| == 11 {
      assert AllDigits(s[|s| - 11..]) by {
        assert s[|s| - 11..] == s;
      }
    }
  }

  /** Across lines it accepts more: a first line of exactly 10 digits, followed by anything. */
  lemma PhoneFirstLineAccepted(digits: string, rest: string)
    requires |digits| == 10 && AllDigits(digits)
    ensures PhoneFormat(digits + "\n" + rest)
  {
    var s := digits + "\n" + rest;
    assert s[..10] == digits;
  }

  /** ...and anything followed by a last line of exactly 11 digits. */
  lemma PhoneLastLineAccepted(before: string, digits: string)
    requires |digits| == 11 && AllDigits(digits)
    ensures PhoneFormat(before + "\n" + digits)
  {
    var s := before + "\n" + digits;
    assert s[|s| - 11..] == digits;
  }

  /** Every accepted string is one of those three shapes. */
  lemma PhoneAcceptedShapes(s: string)
    requires PhoneFormat(s)
    ensures || (AllDigits(s) && (|s| == 10 || |s| == 11))
            || (10 < |s| && AllDigits(s[..10]) && s[10] == '\n')
            || (11 < |s| && s[|s| - 12] == '\n' && AllDigits(s[|s| - 11..]))
  {
    if 10 <= |s| && AllDigits(s[..10]) && LineEnd(s, 10) && |s| == 10 {
      assert s == s[..10];
    } else if 11 <= |s| && LineStart(s, |s| - 11) && AllDigits(s[|s| - 11..]) && |s| == 11 {
      assert s == s[|s| - 11..];
    }
  }

  /** A concrete string that is not a phone number and is accepted all the same. */
  lemma PhoneAcceptsTrailingText()
    ensures PhoneFormat("0901234567\nabc") && !AllDigits("0901234567\nabc")
  {
    PhoneFirstLineAccepted("0901234567", "abc");
    assert !IsDigit("0901234567\nabc"[10]);
  }

  // ---------------------------------------------------------------------------
  // The validations
  // ---------------------------------------------------------------------------

  /** The error keys Rails records against a user. */
  datatype UserError =
    | NameBlank | NameTooLong | NameTaken
    | EmailBlank | EmailInvalid
    | PhoneBlank | PhoneInvalid
    | BirthdateBlank
    | WebsiteInvalid

  const NameMaximum := 15

  /**
   * `validates :name, presence: true, length: { maximum: 15 }, uniqueness: true`,
   * uniqueness judged against the names of the other users.
   */
  function NameErrors(name: Option<string>, otherNames: set<string>): set<UserError>
  {
    (if Blank(name) then {NameBlank} else {})
    + (if Length(name) > NameMaximum then {NameTooLong} else {})
    + (if name.Some? && name.value in otherNames then {NameTaken} else {})
  }

  /** `validates :email, presence: true, format: { with: ... }`; the format test sees `nil` as "". */
  function EmailErrors(email: Option<string>): set<UserError>
  {
    (if Blank(email) then {EmailBlank} else {})
    + (if !EmailFormat(ToS(email)) then {EmailInvalid} else {})
  }

  /** `validates :phone, presence: true, format: { with: ... }` */
  function PhoneErrors(phone: Option<string>): set<UserError>
  {
    (if Blank(phone) then {PhoneBlank} else {})
    + (if !PhoneFormat(ToS(phone)) then {PhoneInvalid} else {})
  }

  /**
   * `validates :website, format: { with: URI::DEFAULT_PARSER.make_regexp }, allow_blank: true`;
   * `isUri` stands for the URI parser's pattern.
   */
  function WebsiteErrors(website: Option<string>, isUri: string -> bool): set<UserError>
  {
    if Blank(website) || isUri(website.value) then {} else {WebsiteInvalid}
  }

  /** Every error the five validations record on `u`. */
  function UserErrors(u: User, otherNames: set<string>, isUri: string -> bool): set<UserError>
  {
    NameErrors(u.name, otherNames)
    + EmailErrors(u.email)
    + PhoneErrors(u.phone)
    + (if u.birthdate.None? then {BirthdateBlank} else {})
    + WebsiteErrors(u.website, isUri)
  }

  /** A name is accepted iff it is not blank, has at most 15 characters and no other user has it. */
  lemma NameValidIff(name: Option<string>, otherNames: set<string>)
    ensures NameErrors(name, otherNames) == {}
        <==> name.Some? && !BlankString(name.value) && |name.value| <= 15 && name.value !in otherNames
  {
    if NameErrors(name, otherNames) == {} {
      assert NameBlank !in NameErrors(name, otherNames);
      assert NameTooLong !in NameErrors(name, otherNames);
      assert NameTaken !in NameErrors(name, otherNames);
    }
  }

  /** A format match already rules out a blank email or phone: presence adds nothing there. */
  lemma FormatImpliesPresent(s: string)
    ensures EmailFormat(s) ==> Present(Some(s))
    ensures PhoneFormat(s) ==> Present(Some(s))
  {
    if EmailFormat(s) {
      var at := IndexOf(s, '@');
      assert !IsSpace(s[at]);
    }
    if PhoneFormat(s) {
      if 10 <= |s| && AllDigits(s[..10]) && LineEnd(s, 10) {
        assert IsDigit(s[..10][0]);
      } else {
        assert IsDigit(s[|s| - 11..][0]);
      }
    }
  }

  /**
   * A user is valid iff its name passes, its email matches the email pattern,
   * its phone matches the phone pattern, it has a birthdate and its website
   * is blank or a URI.
   */
  lemma UserValidIff(u: User, otherNames: set<string>, isUri: string -> bool)
    ensures UserErrors(u, otherNames, isUri) == {}
        <==> && u.name.Some? && !BlankString(u.name.value) && |u.name.value| <= 15
             && u.name.value !in otherNames
             && u.email.Some? && EmailPattern(u.email.value)
             && u.phone.Some? && PhoneFormat(u.phone.value)
             && u.birthdate.Some?
             && (Blank(u.website) || isUri(u.website.value))
  {
    NameValidIff(u.name, otherNames);
    EmailFormatIsPattern(ToS(u.email));
    FormatImpliesPresent(ToS(u.email));
    FormatImpliesPresent(ToS(u.phone));
    var errs := UserErrors(u, otherNames, isUri);
    if errs == {} {
      assert NameErrors(u.name, otherNames) == {};
      assert EmailBlank !in errs && EmailInvalid !in errs;
      assert PhoneBlank !in errs && PhoneInvalid !in errs;
      assert BirthdateBlank !in errs && WebsiteInvalid !in errs;
    }
  }

  // ---------------------------------------------------------------------------
  // as_json
  // ---------------------------------------------------------------------------

  const Host := "localhost:3000"

  /** The keys `as_json` always adds. */
  const UrlKeys: set<string> := {"avatar_url", "header_image_url"}

  /**
   * `generate_attachment_url`: `nil` when nothing is attached, otherwise the
   * absolute storage proxy URL on host localhost:3000.
   */
  function AttachmentUrl(slot: AttachmentSlot, h: Helpers): (url: Value)
    ensures url == Null <==> !Attached(slot)
    ensures Attached(slot) ==> url.Str? && "http://" + Host + "/" <= url.s
  {
    match slot
    case None => Null
    case Some(a) => Str("http://" + Host + "/" + h.proxyPath(a))
  }

  /** `attachment_urls` */
  function AttachmentUrls(u: User, h: Helpers): Doc
  {
    map["avatar_url" := AttachmentUrl(u.avatarImage, h), "header_image_url" := AttachmentUrl(u.headerImage, h)]
  }

  /**
   * `as_json(options)`: the attribute hash as the options filter it, with both
   * attachment URLs merged over it whatever the options say.
   */
  function AsJson(u: User, opts: SerializeOptions, h: Helpers): Doc
  {
    Merge(SerializableHash(UserColumns(u), opts), AttachmentUrls(u, h))
  }

  /**
   * Whatever the options say, the document holds both URL keys with the
   * resolved URLs; every other key is an allowed column with its value.
   */
  lemma AsJsonShape(u: User, opts: SerializeOptions, h: Helpers)
    ensures AsJson(u, opts, h).Keys == SerializableHash(UserColumns(u), opts).Keys + UrlKeys
    ensures opts.only.Some? ==> AsJson(u, opts, h).Keys == (UserColumns(u).Keys * opts.only.value) + UrlKeys
    ensures AsJson(u, opts, h)["avatar_url"] == AttachmentUrl(u.avatarImage, h)
    ensures AsJson(u, opts, h)["header_image_url"] == AttachmentUrl(u.headerImage, h)
    ensures forall k :: k in AsJson(u, opts, h) && k !in UrlKeys ==>
              k in UserColumns(u) && AsJson(u, opts, h)[k] == UserColumns(u)[k]
  {
    SerializableHashShape(UserColumns(u), opts);
    MergeShape(SerializableHash(UserColumns(u), opts), AttachmentUrls(u, h));
  }

  /**
   * With an allow-list of user columns and URL keys, the document has exactly
   * the allowed keys and both URL keys, whatever other columns the row has,
   * and each allowed column carries the row's value.
   */
  lemma AsJsonOnlyKeys(u: User, names: set<string>, h: Helpers)
    requires names <= UserColumnNames + UrlKeys
    ensures AsJson(u, Only(names), h).Keys == names + UrlKeys
    ensures forall k :: k in names && k !in UrlKeys ==> AsJson(u, Only(names), h)[k] == UserColumns(u)[k]
  {
    AsJsonShape(u, Only(names), h);
    UserColumnsShape(u);
    var cols := UserColumns(u);
    assert cols.Keys * names + UrlKeys == names + UrlKeys;
  }

  /**
   * Merging the avatar URL once more over a user document, as a comment's
   * author sub-document does, changes nothing.
   */
  lemma AvatarRemergeRedundant(u: User, opts: SerializeOptions, h: Helpers)
    ensures Merge(AsJson(u, opts, h), map["avatar_url" := AttachmentUrl(u.avatarImage, h)]) == AsJson(u, opts, h)
  {
    AsJsonShape(u, opts, h);
    MergeAbsorbed(AsJson(u, opts, h), map["avatar_url" := AttachmentUrl(u.avatarImage, h)]);
  }

  /** The user document does not depend on the clock. */
  lemma AsJsonClockFree(u: User, opts: SerializeOptions, h: Helpers, later: int)
    ensures AsJson(u, opts, h) == AsJson(u, opts, h.(now := later))
  {
    var h2 := h.(now := later);
    assert AttachmentUrls(u, h) == AttachmentUrls(u, h2);
  }
}
