/** `JSON.stringify` and `JSON.parse` for the records the services keep in
    `localStorage`: an `Image` (with its `ImageVersion` list) and a `User`. A JSON value
    is a tree of strings, integers, objects and arrays. `JsonTo` writes it without
    whitespace, quoting strings with `"` and `\` escaped; `ParseJson` reads such text
    back. A record becomes an object whose members come in the order of the object
    literal that builds it, with a `Date` written as its date text (see
    `Text.RenderDate`) and an absent optional field left out. Each text writer takes the
    text that follows the value (`rest`), so that text is built and read back one piece
    at a time. */
module JsonCodec {
  import opened Types
  import opened Text

  // ---------------------------------------------------------------------------
  // Literals

  function Lit(lit: string, s: string): (r: Option<string>)
    ensures r.Some? ==> |r.value| == |s| - |lit|
  {
    if StartsWith(s, lit) then Some(s[|lit|..]) else None
  }

  lemma LitRoundTrip(lit: string, rest: string)
    ensures Lit(lit, lit + rest) == Some(rest)
  {
    assert (lit + rest)[..|lit|] == lit;
    assert (lit + rest)[|lit|..] == rest;
  }

  /** A text whose `i`-th character differs from the literal's does not start with it. */
  lemma NotStartsWithAt(s: string, lit: string, i: nat)
    requires i < |s| && i < |lit| && s[i] != lit[i]
    ensures !StartsWith(s, lit)
  {
    if |lit| <= |s| {
      assert s[..|lit|][i] == s[i];
    }
  }

  // ---------------------------------------------------------------------------
  // Strings

  predicate NeedsEscape(c: char) {
    c == '"' || c == '\\'
  }

  /** The characters of `v` with `"` and `\` escaped, followed by `rest`. */
  function EscapedTo(v: string, rest: string): string {
    if v == [] then rest
    else if NeedsEscape(v[0]) then ['\\', v[0]] + EscapedTo(v[1..], rest)
    else [v[0]] + EscapedTo(v[1..], rest)
  }

  /** A JSON string literal holding `v`, followed by `rest`. */
  function StringTo(v: string, rest: string): string {
    "\"" + EscapedTo(v, "\"" + rest)
  }

  /** Reads string characters up to the closing quote. */
  function ParseStringBody(s: string): (r: Option<(string, string)>)
    ensures r.Some? ==> |r.value.1| < |s|
  {
    if s == [] then None
    else if s[0] == '"' then Some(([], s[1..]))
    else if s[0] == '\\' then
      if |s| < 2 then None
      else match ParseStringBody(s[2..])
        case None => None
        case Some((v, rest)) => Some(([s[1]] + v, rest))
    else match ParseStringBody(s[1..])
      case None => None
      case Some((v, rest)) => Some(([s[0]] + v, rest))
  }

  function ParseString(s: string): (r: Option<(string, string)>)
    ensures r.Some? ==> |r.value.1| < |s|
  {
    if s != [] && s[0] == '"' then ParseStringBody(s[1..]) else None
  }

  lemma {:induction false} StringBodyRoundTrip(v: string, rest: string)
    ensures ParseStringBody(EscapedTo(v, "\"" + rest)) == Some((v, rest))
  {
    if v == [] {
      assert ("\"" + rest)[1..] == rest;
    } else {
      var tail := EscapedTo(v[1..], "\"" + rest);
      StringBodyRoundTrip(v[1..], rest);
      if NeedsEscape(v[0]) {
        assert (['\\', v[0]] + tail)[2..] == tail;
      } else {
        assert ([v[0]] + tail)[1..] == tail;
      }
      assert [v[0]] + v[1..] == v;
    }
  }

  lemma StringRoundTrip(v: string, rest: string)
    ensures ParseString(StringTo(v, rest)) == Some((v, rest))
  {
    StringBodyRoundTrip(v, rest);
    assert StringTo(v, rest)[1..] == EscapedTo(v, "\"" + rest);
  }


  // ---------------------------------------------------------------------------
  // JSON values

  datatype Json =
    | JString(str: string)
    | JNumber(num: int)
    | JObject(members: Members)
    | JArray(elements: Elements)

  /** The members of an object, in order. */
  datatype Members = MNil | MCons(key: string, value: Json, more: Members)

  /** The elements of an array, in order. */
  datatype Elements = ENil | ECons(first: Json, others: Elements)

  /** `JSON.stringify(j)` followed by `rest`. */
  function JsonTo(j: Json, rest: string): string {
    match j
    case JString(s) => StringTo(s, rest)
    case JNumber(n) => RenderInt(n) + rest
    case JObject(ms) => "{" + MembersTo(ms, "}" + rest)
    case JArray(es) => "[" + ElementsTo(es, "]" + rest)
  }

  function MembersTo(ms: Members, rest: string): string {
    match ms
    case MNil => rest
    case MCons(k, v, more) =>
      StringTo(k, ":" + JsonTo(v, if more.MNil? then rest else "," + MembersTo(more, rest)))
  }

  function ElementsTo(es: Elements, rest: string): string {
    match es
    case ENil => rest
    case ECons(e, more) =>
      JsonTo(e, if more.ENil? then rest else "," + ElementsTo(more, rest))
  }

  /** Reads one JSON value from the front of `s`. */
  function ParseJson(s: string): (r: Option<(Json, string)>)
    ensures r.Some? ==> |r.value.1| < |s|
    decreases |s|, 1
  {
    if s == [] then None
    else if s[0] == '"' then
      match ParseString(s)
      case None => None
      case Some((v, rest)) => Some((JString(v), rest))
    else if s[0] == '{' then
      if StartsWith(s[1..], "}") then Some((JObject(MNil), s[2..]))
      else
        match ParseMembers(s[1..])
        case None => None
        case Some((ms, t)) =>
          match Lit("}", t)
          case None => None
          case Some(rest) => Some((JObject(ms), rest))
    else if s[0] == '[' then
      if StartsWith(s[1..], "]") then Some((JArray(ENil), s[2..]))
      else
        match ParseElements(s[1..])
        case None => None
        case Some((es, t)) =>
          match Lit("]", t)
          case None => None
          case Some(rest) => Some((JArray(es), rest))
    else
      match ParseInt(s)
      case None => None
      case Some((n, rest)) => Some((JNumber(n), rest))
  }

  /** Reads `"key":value` pairs separated by commas. */
  function ParseMembers(s: string): (r: Option<(Members, string)>)
    ensures r.Some? ==> |r.value.1| < |s|
    decreases |s|, 0
  {
    match ParseString(s)
    case None => None
    case Some((k, t)) =>
      match Lit(":", t)
      case None => None
      case Some(u) =>
        match ParseJson(u)
        case None => None
        case Some((v, w)) =>
          if StartsWith(w, ",") then
            match ParseMembers(w[1..])
            case None => None
            case Some((more, rest)) => Some((MCons(k, v, more), rest))
          else Some((MCons(k, v, MNil), w))
  }

  /** Reads values separated by commas. */
  function ParseElements(s: string): (r: Option<(Elements, string)>)
    ensures r.Some? ==> |r.value.1| < |s|
    decreases |s|, 2
  {
    match ParseJson(s)
    case None => None
    case Some((e, w)) =>
      if StartsWith(w, ",") then
        match ParseElements(w[1..])
        case None => None
        case Some((more, rest)) => Some((ECons(e, more), rest))
      else Some((ECons(e, ENil), w))
  }

  lemma RenderIntStart(n: int)
    ensures RenderInt(n)[0] == '-' || IsDigit(RenderInt(n)[0])
  {
  }

  lemma {:induction false} JsonRoundTrip(j: Json, rest: string)
    requires NumberEnds(rest)
    ensures ParseJson(JsonTo(j, rest)) == Some((j, rest))
    decreases j, 1
  {
    match j
    case JString(v) =>
      StringRoundTrip(v, rest);
    case JNumber(n) =>
      NumberRoundTrip(n, rest);
    case JObject(ms) =>
      ObjectRoundTrip(ms, rest);
    case JArray(es) =>
      ArrayRoundTrip(es, rest);
  }

  lemma NumberRoundTrip(n: int, rest: string)
    requires NumberEnds(rest)
    ensures ParseJson(JsonTo(JNumber(n), rest)) == Some((JNumber(n), rest))
  {
    RenderIntStart(n);
    assert JsonTo(JNumber(n), rest)[0] == RenderInt(n)[0];
    ParseIntRoundTrip(n, rest);
  }

  lemma {:induction false} ObjectRoundTrip(ms: Members, rest: string)
    requires NumberEnds(rest)
    ensures ParseJson(JsonTo(JObject(ms), rest)) == Some((JObject(ms), rest))
    decreases ms, 2
  {
    var s := JsonTo(JObject(ms), rest);
    var body := MembersTo(ms, "}" + rest);
    assert s[1..] == body;
    if ms.MNil? {
      LitRoundTrip("}", rest);
      assert s[2..] == rest;
    } else {
      assert body[0] == '"';
      NotStartsWithAt(body, "}", 0);
      MembersRoundTrip(ms, "}" + rest);
      LitRoundTrip("}", rest);
    }
  }

  lemma {:induction false} ArrayRoundTrip(es: Elements, rest: string)
    requires NumberEnds(rest)
    ensures ParseJson(JsonTo(JArray(es), rest)) == Some((JArray(es), rest))
    decreases es, 2
  {
    var s := JsonTo(JArray(es), rest);
    var body := ElementsTo(es, "]" + rest);
    assert s[1..] == body;
    if es.ENil? {
      LitRoundTrip("]", rest);
      assert s[2..] == rest;
    } else {
      ElementsStart(es, "]" + rest);
      NotStartsWithAt(body, "]", 0);
      ElementsRoundTrip(es, "]" + rest);
      LitRoundTrip("]", rest);
    }
  }

  /** Written elements never start with `]`: each value starts with `"`, `{`, `[`, `-` or
      a digit. */
  lemma {:induction false} ElementsStart(es: Elements, rest: string)
    requires es.ECons?
    ensures ElementsTo(es, rest) != [] && ElementsTo(es, rest)[0] != ']'
  {
    var tail := if es.others.ENil? then rest else "," + ElementsTo(es.others, rest);
    match es.first
    case JNumber(n) =>
      RenderIntStart(n);
      assert ElementsTo(es, rest)[0] == RenderInt(n)[0];
    case _ =>
  }

  lemma {:induction false} MembersRoundTrip(ms: Members, rest: string)
    requires ms.MCons? && rest != [] && rest[0] == '}'
    ensures ParseMembers(MembersTo(ms, rest)) == Some((ms, rest))
    decreases ms, 0
  {
    var tail := if ms.more.MNil? then rest else "," + MembersTo(ms.more, rest);
    var valueText := JsonTo(ms.value, tail);
    StringRoundTrip(ms.key, ":" + valueText);
    LitRoundTrip(":", valueText);
    JsonRoundTrip(ms.value, tail);
    if ms.more.MNil? {
      NotStartsWithAt(rest, ",", 0);
    } else {
      LitRoundTrip(",", MembersTo(ms.more, rest));
      assert tail[1..] == MembersTo(ms.more, rest);
      MembersRoundTrip(ms.more, rest);
    }
  }

  lemma {:induction false} ElementsRoundTrip(es: Elements, rest: string)
    requires es.ECons? && rest != [] && rest[0] == ']'
    ensures ParseElements(ElementsTo(es, rest)) == Some((es, rest))
    decreases es, 0
  {
    var tail := if es.others.ENil? then rest else "," + ElementsTo(es.others, rest);
    JsonRoundTrip(es.first, tail);
    if es.others.ENil? {
      NotStartsWithAt(rest, ",", 0);
    } else {
      LitRoundTrip(",", ElementsTo(es.others, rest));
      assert tail[1..] == ElementsTo(es.others, rest);
      ElementsRoundTrip(es.others, rest);
    }
  }

  /** `JSON.parse(text)`: one value and nothing after it. */
  function ParseJsonText(text: string): Option<Json> {
    match ParseJson(text)
    case Some((j, rest)) => if rest == [] then Some(j) else None
    case None => None
  }

  lemma JsonTextRoundTrip(j: Json)
    ensures ParseJsonText(JsonTo(j, "")) == Some(j)
  {
    JsonRoundTrip(j, "");
  }

  // ---------------------------------------------------------------------------
  // Reading an object's members in order

  function ReadString(ms: Members, key: string): Option<(string, Members)> {
    match ms
    case MCons(k, JString(s), more) => if k == key then Some((s, more)) else None
    case _ => None
  }

  function ReadNumber(ms: Members, key: string): Option<(int, Members)> {
    match ms
    case MCons(k, JNumber(n), more) => if k == key then Some((n, more)) else None
    case _ => None
  }

  function ReadDate(ms: Members, key: string): Option<(Timestamp, Members)> {
    var p :- ReadString(ms, key);
    var t :- ParseDate(p.0);
    Some((t, p.1))
  }

  function ReadValue(ms: Members, key: string): Option<(Json, Members)> {
    match ms
    case MCons(k, v, more) => if k == key then Some((v, more)) else None
    case MNil => None
  }

  /** An optional string member: absent unless the next member has this key. */
  function ReadOptString(ms: Members, key: string): (Option<string>, Members) {
    match ms
    case MCons(k, JString(s), more) => if k == key then (Some(s), more) else (None, ms)
    case _ => (None, ms)
  }

  /** An optional string member, left out when absent. */
  function OptMember(key: string, o: Option<string>, more: Members): Members {
    match o
    case None => more
    case Some(s) => MCons(key, JString(s), more)
  }

  function DateJson(t: Timestamp): Json {
    JString(RenderDate(t))
  }

  /** A written date member reads back as the same timestamp. */
  lemma ReadDateRoundTrip(key: string, t: Timestamp, more: Members)
    ensures ReadDate(MCons(key, DateJson(t), more), key) == Some((t, more))
  {
    DateRoundTrip(t);
  }

  /** An optional member reads back as written, provided the member after it does not
      carry the same key. */
  lemma ReadOptRoundTrip(key: string, o: Option<string>, more: Members)
    requires more.MCons? ==> more.key != key
    ensures ReadOptString(OptMember(key, o, more), key) == (o, more)
  {
  }

  // ---------------------------------------------------------------------------
  // Image records

  function StatusName(s: Status): string {
    match s
    case Generating => "generating"
    case Completed => "completed"
    case Failed => "failed"
  }

  function StatusOf(name: string): (r: Option<Status>)
    ensures forall s: Status :: StatusName(s) == name ==> r == Some(s)
  {
    if name == "generating" then Some(Generating)
    else if name == "completed" then Some(Completed)
    else if name == "failed" then Some(Failed)
    else None
  }

  function MetadataJson(m: Metadata): Json {
    JObject(MCons("width", JNumber(m.width), MCons("height", JNumber(m.height),
      MCons("format", JString(m.format), MCons("size", JNumber(m.size), MNil)))))
  }

  function MetadataFromJson(j: Json): Option<Metadata> {
    if !j.JObject? then None
    else
      var w :- ReadNumber(j.members, "width");
      var h :- ReadNumber(w.1, "height");
      var f :- ReadString(h.1, "format");
      var z :- ReadNumber(f.1, "size");
      if z.1.MNil? then Some(Metadata(w.0, h.0, f.0, z.0)) else None
  }

  function VersionJson(v: ImageVersion): Json {
    JObject(MCons("id", JString(v.id), MCons("imageId", JString(v.imageId),
      MCons("prompt", JString(v.prompt), MCons("imageUrl", JString(v.imageUrl),
      MCons("createdAt", DateJson(v.createdAt),
      OptMember("parentVersionId", v.parentVersionId, MNil)))))))
  }

  function VersionFromJson(j: Json): Option<ImageVersion> {
    if !j.JObject? then None
    else
      var id :- ReadString(j.members, "id");
      var imageId :- ReadString(id.1, "imageId");
      var prompt :- ReadString(imageId.1, "prompt");
      var url :- ReadString(prompt.1, "imageUrl");
      var created :- ReadDate(url.1, "createdAt");
      var parent := ReadOptString(created.1, "parentVersionId");
      if parent.1.MNil? then Some(ImageVersion(id.0, imageId.0, prompt.0, url.0, created.0, parent.0))
      else None
  }

  function VersionElements(vs: seq<ImageVersion>): Elements {
    if vs == [] then ENil else ECons(VersionJson(vs[0]), VersionElements(vs[1..]))
  }

  function VersionsFromElements(es: Elements): Option<seq<ImageVersion>> {
    match es
    case ENil => Some([])
    case ECons(e, more) =>
      var v :- VersionFromJson(e);
      var vs :- VersionsFromElements(more);
      Some([v] + vs)
  }

  /** The members of an image record from `status` on. */
  function ImageTailMembers(img: Image): Members {
    MCons("status", JString(StatusName(img.status)),
    MCons("createdAt", DateJson(img.createdAt),
    MCons("updatedAt", DateJson(img.updatedAt),
    MCons("metadata", MetadataJson(img.metadata),
    MCons("versions", JArray(VersionElements(img.versions)), MNil)))))
  }

  function ImageJson(img: Image): Json {
    JObject(MCons("id", JString(img.id), MCons("userId", JString(img.userId),
      MCons("prompt", JString(img.prompt), MCons("imageUrl", JString(img.imageUrl),
      OptMember("thumbnail", img.thumbnail, ImageTailMembers(img)))))))
  }

  /** Reads the members of an image record from `status` on. */
  function ImageTailFromMembers(ms: Members): Option<(Status, Timestamp, Timestamp, Metadata, seq<ImageVersion>)> {
    var statusName :- ReadString(ms, "status");
    var status :- StatusOf(statusName.0);
    var created :- ReadDate(statusName.1, "createdAt");
    var updated :- ReadDate(created.1, "updatedAt");
    var meta :- ReadValue(updated.1, "metadata");
    var metadata :- MetadataFromJson(meta.0);
    var versions :- ReadValue(meta.1, "versions");
    if !versions.0.JArray? || !versions.1.MNil? then None
    else
      var vs :- VersionsFromElements(versions.0.elements);
      Some((status, created.0, updated.0, metadata, vs))
  }

  function ImageFromJson(j: Json): Option<Image> {
    if !j.JObject? then None
    else
      var id :- ReadString(j.members, "id");
      var userId :- ReadString(id.1, "userId");
      var prompt :- ReadString(userId.1, "prompt");
      var url :- ReadString(prompt.1, "imageUrl");
      var thumbnail := ReadOptString(url.1, "thumbnail");
      var tail :- ImageTailFromMembers(thumbnail.1);
      Some(Image(id.0, userId.0, prompt.0, url.0, thumbnail.0, tail.0, tail.1, tail.2, tail.3, tail.4))
  }

  lemma MetadataRoundTrip(m: Metadata)
    ensures MetadataFromJson(MetadataJson(m)) == Some(m)
  {
  }

  lemma VersionFromJsonRoundTrip(v: ImageVersion)
    ensures VersionFromJson(VersionJson(v)) == Some(v)
  {
    var tail := OptMember("parentVersionId", v.parentVersionId, MNil);
    ReadDateRoundTrip("createdAt", v.createdAt, tail);
    ReadOptRoundTrip("parentVersionId", v.parentVersionId, MNil);
  }

  lemma {:induction false} VersionsRoundTrip(vs: seq<ImageVersion>)
    ensures VersionsFromElements(VersionElements(vs)) == Some(vs)
  {
    if vs != [] {
      VersionFromJsonRoundTrip(vs[0]);
      VersionsRoundTrip(vs[1..]);
      assert [vs[0]] + vs[1..] == vs;
    }
  }

  lemma ImageTailRoundTrip(img: Image)
    ensures ImageTailFromMembers(ImageTailMembers(img))
         == Some((img.status, img.createdAt, img.updatedAt, img.metadata, img.versions))
  {
    var ms := ImageTailMembers(img);
    var afterCreated := ms.more.more;
    var afterUpdated := afterCreated.more;
    var afterMetadata := afterUpdated.more;
    assert ReadString(ms, "status") == Some((StatusName(img.status), ms.more));
    assert StatusOf(StatusName(img.status)) == Some(img.status);
    ReadDateRoundTrip("createdAt", img.createdAt, afterCreated);
    ReadDateRoundTrip("updatedAt", img.updatedAt, afterUpdated);
    assert ReadValue(afterUpdated, "metadata") == Some((MetadataJson(img.metadata), afterMetadata));
    MetadataRoundTrip(img.metadata);
    assert ReadValue(afterMetadata, "versions") == Some((JArray(VersionElements(img.versions)), MNil));
    VersionsRoundTrip(img.versions);
  }

  lemma ImageFromJsonRoundTrip(img: Image)
    ensures ImageFromJson(ImageJson(img)) == Some(img)
  {
    ReadOptRoundTrip("thumbnail", img.thumbnail, ImageTailMembers(img));
    ImageTailRoundTrip(img);
  }

  /** `JSON.stringify(image)`. */
  function StringifyImage(img: Image): string {
    JsonTo(ImageJson(img), "")
  }

  /** `JSON.parse(text)` read as an `Image`; `None` for text that is not an image record. */
  function ParseImageJson(text: string): Option<Image> {
    var j :- ParseJsonText(text);
    ImageFromJson(j)
  }

  lemma ImageJsonRoundTrip(img: Image)
    ensures ParseImageJson(StringifyImage(img)) == Some(img)
  {
    JsonTextRoundTrip(ImageJson(img));
    ImageFromJsonRoundTrip(img);
  }

  // ---------------------------------------------------------------------------
  // User records

  function UserJson(u: User): Json {
    JObject(MCons("id", JString(u.id), MCons("email", JString(u.email),
      MCons("name", JString(u.name), MCons("firstName", JString(u.firstName),
      MCons("lastName", JString(u.lastName), MCons("createdAt", DateJson(u.createdAt),
      MCons("updatedAt", DateJson(u.updatedAt),
      OptMember("apiKey", u.apiKey, MNil)))))))))
  }

  function UserFromJson(j: Json): Option<User> {
    if !j.JObject? then None
    else
      var id :- ReadString(j.members, "id");
      var email :- ReadString(id.1, "email");
      var name :- ReadString(email.1, "name");
      var first :- ReadString(name.1, "firstName");
      var last :- ReadString(first.1, "lastName");
      var created :- ReadDate(last.1, "createdAt");
      var updated :- ReadDate(created.1, "updatedAt");
      var apiKey := ReadOptString(updated.1, "apiKey");
      if apiKey.1.MNil? then Some(User(id.0, email.0, name.0, first.0, last.0, apiKey.0, created.0, updated.0))
      else None
  }

  lemma UserFromJsonRoundTrip(u: User)
    ensures UserFromJson(UserJson(u)) == Some(u)
  {
    var tail := OptMember("apiKey", u.apiKey, MNil);
    ReadDateRoundTrip("createdAt", u.createdAt, MCons("updatedAt", DateJson(u.updatedAt), tail));
    ReadDateRoundTrip("updatedAt", u.updatedAt, tail);
    ReadOptRoundTrip("apiKey", u.apiKey, MNil);
  }

  /** `JSON.stringify(user)`. */
  function StringifyUser(u: User): string {
    JsonTo(UserJson(u), "")
  }

  /** `JSON.parse(text)` read as a `User`; `None` for text that is not a user record. */
  function ParseUserJson(text: string): Option<User> {
    var j :- ParseJsonText(text);
    UserFromJson(j)
  }

  lemma UserJsonRoundTrip(u: User)
    ensures ParseUserJson(StringifyUser(u)) == Some(u)
  {
    JsonTextRoundTrip(UserJson(u));
    UserFromJsonRoundTrip(u);
  }
}
