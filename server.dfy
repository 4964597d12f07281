/** The HTTP handlers of `server.js` over its data directory. The directory
    is the field `files` of a `Backend`; `readJSON` and `writeJSON` are its
    two primitive methods, and every route handler is a method that reads,
    changes and writes the files through them. Clock readings and the outcome
    of loading the e-mail templates and of each mail delivery are parameters. */
module Server {
  import opened Js
  import opened JsNumbers
  import opened DataFiles
  import opened Inbox

  /** The content documents served under `/api/<name>`. */
  datatype ContentRoute = Home | Projects | Blogs | Profile | About | Contact | NotFoundPage | Socials

  /** The file behind a content route; never the inbox. */
  function FileOf(route: ContentRoute): (r: string)
    ensures r != MessagesFile
  {
    match route
    case Home => "home.json"
    case Projects => "projects.json"
    case Blogs => "blogs.json"
    case Profile => "profile.json"
    case About => "about.json"
    case Contact => "contact.json"
    case NotFoundPage => "404.json"
    case Socials => "socials.json"
  }

  function SocialLink(platform: string, url: string): Json {
    Obj(map["platform" := Str(platform), "url" := Str(url)])
  }

  /** The value a GET route seeds a missing document with. */
  function FallbackOf(route: ContentRoute): (r: Json)
    ensures r.Arr? <==> route in {Projects, Blogs, Socials}
    ensures r.Obj? <==> route !in {Projects, Blogs, Socials}
    ensures r.Arr? && route != Socials ==> r.items == []
    ensures route !in {Projects, Blogs, Socials} ==> r == Obj(map[])
    ensures route == Socials ==> r.items == [
      SocialLink("X", "https://twitter.com/yourhandle"),
      SocialLink("Instagram", "https://instagram.com/yourhandle"),
      SocialLink("LinkedIn", "https://linkedin.com/in/yourhandle")]
  {
    match route
    case Projects => Arr([])
    case Blogs => Arr([])
    case Socials => Arr([
      SocialLink("X", "https://twitter.com/yourhandle"),
      SocialLink("Instagram", "https://instagram.com/yourhandle"),
      SocialLink("LinkedIn", "https://linkedin.com/in/yourhandle")])
    case _ => Obj(map[])
  }

  /** Each content route has a file of its own, and none of them is the inbox. */
  lemma ContentFilesDistinct(a: ContentRoute, b: ContentRoute)
    ensures FileOf(a) == FileOf(b) <==> a == b
    ensures FileOf(a) != MessagesFile
  {
    var fa, fb := FileOf(a), FileOf(b);
    if a != b {
      assert fa[0] != fb[0] || fa[1] != fb[1] || |fa| != |fb|;
    }
    assert |fa| != |MessagesFile| || fa[0] != MessagesFile[0];
  }

  /** The response of a handler: `{ ok: true }` with an optional message, an
      error status with its error text, or an exception that escapes the
      handler (Express then answers 500 on its own). */
  datatype Reply = Ok(message: Option<string>) | Failed(status: nat, error: string) | Crashed

  /** The response of the paginated listing. */
  datatype Listing = Listing(page: int, limit: int, total: nat, messages: seq<Json>) | ListingCrashed

  /** Whom send-message tried to e-mail, in order. */
  datatype Recipient = Admin | Visitor(address: Json)

  /** What happens outside the process during send-message: whether both
      templates could be read, and whether each of the two deliveries succeeded. */
  datatype Mailer = Mailer(templatesLoaded: bool, adminDelivered: bool, visitorDelivered: bool)

  const MissingId := "Missing message ID"
  const NotFound := "Message not found"
  const MarkedRead := "Message marked as read"
  const Deleted := "Message deleted"
  const MissingFields := "Missing required fields"
  const SendFailed := "Failed to send email"
  const EmailsSent := "Emails sent successfully"

  /** Both templates were read and both deliveries succeeded. */
  predicate Delivered(mailer: Mailer) {
    mailer.templatesLoaded && mailer.adminDelivered && mailer.visitorDelivered
  }

  /** The body names a truthy `name`, `email` and `message`. */
  predicate HasRequiredFields(body: Json)
    ensures HasRequiredFields(body) <==>
      body.Obj? && forall k :: k in {"name", "email", "message"} ==> k in body.fields && Truthy(Some(body.fields[k]))
  {
    Truthy(Prop(body, "name")) && Truthy(Prop(body, "email")) && Truthy(Prop(body, "message"))
  }

  class Backend {
    var files: Files

    constructor (initial: Files)
      ensures files == initial
    {
      files := initial;
    }

    /** `readJSON(file, fallback)`. */
    method ReadJSON(file: string, fallback: Json) returns (v: Json)
      modifies this
      ensures files == Seed(old(files), file, fallback)
      ensures file in files && v == files[file]
    {
      if file !in files {
        files := files[file := fallback];
      }
      v := files[file];
    }

    /** `writeJSON(file, data)`. */
    method WriteJSON(file: string, data: Option<Json>)
      modifies this
      ensures files == old(files)[file := Coalesce(data)]
    {
      var value := match data
        case None => Obj(map[])
        case Some(Null) => Obj(map[])
        case Some(v) => v;
      files := files[file := value];
    }

    /** GET /api/home, /api/projects, ... : the document, seeded if missing. */
    method GetContent(route: ContentRoute) returns (v: Json)
      modifies this
      ensures files == Seed(old(files), FileOf(route), FallbackOf(route))
      ensures v == files[FileOf(route)]
      ensures StoredList(files) == StoredList(old(files))
      ensures old(InboxWellFormed(files)) ==> InboxWellFormed(files)
    {
      ContentFilesDistinct(route, route);
      v := ReadJSON(FileOf(route), FallbackOf(route));
    }

    /** POST /api/home, /api/projects, ... : replace the document with the body. */
    method PostContent(route: ContentRoute, body: Json) returns (r: Reply)
      modifies this
      ensures r == Ok(None)
      ensures files == old(files)[FileOf(route) := Coalesce(Some(body))]
      ensures StoredList(files) == StoredList(old(files))
      ensures old(InboxWellFormed(files)) ==> InboxWellFormed(files)
    {
      ContentFilesDistinct(route, route);
      WriteJSON(FileOf(route), Some(body));
      r := Ok(None);
    }

    /** GET /api/messages: the whole inbox, seeded with `[]` if missing. */
    method GetMessages() returns (v: Json)
      modifies this
      ensures files == Seed(old(files), MessagesFile, Arr([]))
      ensures v == files[MessagesFile]
      ensures StoredList(old(files)).Some? ==> v == Arr(StoredList(old(files)).value)
      ensures old(InboxWellFormed(files)) ==> InboxWellFormed(files)
    {
      v := ReadJSON(MessagesFile, Arr([]));
    }

    /** POST /api/messages: append the body as it is. */
    method PostMessage(body: Json) returns (r: Reply)
      modifies this
      ensures StoredList(old(files)).None? ==> r == Crashed && files == old(files)
      ensures StoredList(old(files)).Some? ==>
        && r == Ok(None)
        && files == old(files)[MessagesFile := Arr(StoredList(old(files)).value + [body])]
      ensures old(InboxWellFormed(files)) ==> InboxWellFormed(files) && r != Crashed
    {
      var list := ReadJSON(MessagesFile, Arr([]));
      if !list.Arr? {
        r := Crashed;
        return;
      }
      var items := list.items + [body];
      WriteJSON(MessagesFile, Some(Arr(items)));
      r := Ok(None);
    }

    /** POST /api/messages/mark-read: set `read` on the first message with the id. */
    method MarkRead(body: Json) returns (r: Reply)
      modifies this
      ensures var id := Prop(body, "id");
        !Truthy(id) ==> r == Failed(400, MissingId) && files == old(files)
      ensures var id := Prop(body, "id");
        Truthy(id) && StoredList(old(files)).None? ==> r == Crashed && files == old(files)
      ensures var id := Prop(body, "id"); var list := StoredList(old(files));
        Truthy(id) && list.Some? && FirstMatch(list.value, id.value) == -1 ==>
          r == Failed(404, NotFound) && files == Seed(old(files), MessagesFile, Arr([]))
      ensures var id := Prop(body, "id"); var list := StoredList(old(files));
        Truthy(id) && list.Some? && FirstMatch(list.value, id.value) >= 0 ==>
          && list.value[FirstMatch(list.value, id.value)].Obj?
          && r == Ok(Some(MarkedRead))
          && files == old(files)[MessagesFile := Arr(MarkAt(list.value, FirstMatch(list.value, id.value)))]
      ensures old(InboxWellFormed(files)) ==> InboxWellFormed(files) && r != Crashed
    {
      var id := Prop(body, "id");
      if !Truthy(id) {
        r := Failed(400, MissingId);
        return;
      }
      var list := ReadJSON(MessagesFile, Arr([]));
      if !list.Arr? {
        r := Crashed;
        return;
      }
      var items := list.items;
      var index := FindIndex(items, id.value);
      if index == -1 {
        r := Failed(404, NotFound);
        return;
      }
      var m := items[index];
      items := items[index := Obj(m.fields["read" := Bool(true)])];
      WriteJSON(MessagesFile, Some(Arr(items)));
      r := Ok(Some(MarkedRead));
    }

    /** POST /api/messages/delete: drop every message with the id. */
    method DeleteMessage(body: Json) returns (r: Reply)
      modifies this
      ensures var id := Prop(body, "id");
        !Truthy(id) ==> r == Failed(400, MissingId) && files == old(files)
      ensures var id := Prop(body, "id");
        Truthy(id) && StoredList(old(files)).None? ==> r == Crashed && files == old(files)
      ensures var id := Prop(body, "id"); var list := StoredList(old(files));
        Truthy(id) && list.Some? ==>
          && r == Ok(Some(Deleted))
          && files == old(files)[MessagesFile := Arr(RemoveId(list.value, id.value))]
      ensures old(InboxWellFormed(files)) ==> InboxWellFormed(files) && r != Crashed
    {
      var id := Prop(body, "id");
      if !Truthy(id) {
        r := Failed(400, MissingId);
        return;
      }
      var list := ReadJSON(MessagesFile, Arr([]));
      if !list.Arr? {
        r := Crashed;
        return;
      }
      WriteJSON(MessagesFile, Some(Arr(RemoveId(list.items, id.value))));
      r := Ok(Some(Deleted));
    }

    /** GET /api/messages/paginated?page=..&limit=.. */
    method Paginated(pageQuery: Option<string>, limitQuery: Option<string>) returns (r: Listing)
      modifies this
      ensures StoredList(old(files)).None? ==> r == ListingCrashed && files == old(files)
      ensures var list := StoredList(old(files));
        list.Some? ==>
          && files == Seed(old(files), MessagesFile, Arr([]))
          && var page, limit := ParamOr(pageQuery, 1), ParamOr(limitQuery, 10);
          r == Listing(page, limit, |list.value|, PageOf(list.value, page, limit))
      ensures old(InboxWellFormed(files)) ==> InboxWellFormed(files) && r != ListingCrashed
    {
      var page := ParamOr(pageQuery, 1);
      var limit := ParamOr(limitQuery, 10);
      var list := ReadJSON(MessagesFile, Arr([]));
      if !list.Arr? {
        r := ListingCrashed;
        return;
      }
      assert StoredList(old(files)) == Some(list.items);
      var start := (page - 1) * limit;
      var end := start + limit;
      r := Listing(page, limit, |list.items|, Slice(list.items, start, end));
    }

    /** POST /api/send-message: validate, load the templates, mail the admin,
        mail the visitor, and only then append the new record. */
    method SendMessage(body: Json, mailer: Mailer, now: int, date: string)
      returns (r: Reply, attempted: seq<Recipient>)
      modifies this
      ensures !HasRequiredFields(body) ==>
        r == Failed(400, MissingFields) && attempted == [] && files == old(files)
      ensures HasRequiredFields(body) ==>
        attempted == (if !mailer.templatesLoaded then []
                      else if !mailer.adminDelivered then [Admin]
                      else [Admin, Visitor(Prop(body, "email").value)])
      ensures HasRequiredFields(body) && !Delivered(mailer) ==>
        r == Failed(500, SendFailed) && files == old(files)
      ensures HasRequiredFields(body) && Delivered(mailer) && StoredList(old(files)).None? ==>
        r == Failed(500, SendFailed) && files == old(files)
      ensures var list := StoredList(old(files));
        HasRequiredFields(body) && Delivered(mailer) && list.Some? ==>
          && r == Ok(Some(EmailsSent))
          && files == old(files)[MessagesFile := Arr(list.value + [NewRecord(now,
               Prop(body, "name").value, Prop(body, "email").value, Prop(body, "message").value, date)])]
      ensures r != Crashed
      ensures old(InboxWellFormed(files)) ==> InboxWellFormed(files)
    {
      attempted := [];
      var name, email, message := Prop(body, "name"), Prop(body, "email"), Prop(body, "message");
      if !Truthy(name) || !Truthy(email) || !Truthy(message) {
        r := Failed(400, MissingFields);
        return;
      }
      if !mailer.templatesLoaded {
        r := Failed(500, SendFailed);
        return;
      }
      attempted := attempted + [Admin];
      if !mailer.adminDelivered {
        r := Failed(500, SendFailed);
        return;
      }
      attempted := attempted + [Visitor(email.value)];
      if !mailer.visitorDelivered {
        r := Failed(500, SendFailed);
        return;
      }
      var list := ReadJSON(MessagesFile, Arr([]));
      if !list.Arr? {
        r := Failed(500, SendFailed);
        return;
      }
      var items := list.items + [NewRecord(now, name.value, email.value, message.value, date)];
      WriteJSON(MessagesFile, Some(Arr(items)));
      r := Ok(Some(EmailsSent));
    }
  }

  /** `?page=1&limit=10` over a one-message inbox lists that message. */
  lemma FirstPageOfOne(m: Json)
    ensures ParamOr(Some("1"), 1) == 1 && ParamOr(Some("10"), 10) == 10
    ensures PageOf([m], 1, 10) == [m]
  {
    SmallNumerals();
    ParamNumeral(1, 1);
    ParamNumeral(10, 10);
    assert Slice([m], 0, 10) == [m];
  }

  lemma SmallNumerals()
    ensures Decimal(1) == "1" && Decimal(10) == "10"
  {
    assert DigitChar(1) == '1' && DigitChar(0) == '0';
    assert 10 / 10 == 1 && 10 % 10 == 0;
    assert Decimal(10) == Decimal(1) + [DigitChar(0)];
  }

  /** A visitor posts a message to an empty data directory; the first page of
      ten then lists exactly that message, and the total is one. */
  method PostThenList(body: Json) returns (listing: Listing)
    ensures listing == Listing(1, 10, 1, [body])
  {
    var backend := new Backend(map[]);
    var posted := backend.PostMessage(body);
    assert backend.files == map[MessagesFile := Arr([body])] by {
      assert [] + [body] == [body];
    }
    FirstPageOfOne(body);
    listing := backend.Paginated(Some("1"), Some("10"));
  }

  /** An admin writes the home document; reading it back returns the body. */
  method WriteThenReadHome(initial: Files, body: Json) returns (v: Json)
    ensures v == Coalesce(Some(body))
  {
    var backend := new Backend(initial);
    var posted := backend.PostContent(Home, body);
    v := backend.GetContent(Home);
  }
}
