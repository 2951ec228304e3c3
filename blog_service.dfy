/**
 * The blog service: create-and-notify, and the operations that parse an
 * identifier string before handing it to the repository.
 */
module BlogService {
  import opened Wrappers
  import opened ObjectIds
  import opened Seqs
  import opened Domain
  import opened BlogRepository
  import opened SubscriberRepository

  /** The data handed to the announcement template. */
  datatype EmailData = EmailData(
    title: string,
    excerpt: string,
    author: string,
    category: string,
    readTime: string,
    tags: seq<string>,
    blogURL: string)

  /** What the service does outside the stores, in the order it does it. */
  datatype Effect =
    | SubscribersRead
    | Rendered(template: string, data: EmailData)
    | EmailSent(to: seq<string>, subject: string, htmlBody: string)

  const NewBlogTemplate: string := "new_blog"

  /** The subject's fixed prefix, character for character as the source file holds it. */
  const SubjectPrefix: string := "\U{F0}\U{178}\U{161}\U{20AC} New Blog Post: "

  const BlogsPath: string := "/blogs/"

  /** The post's page: `baseURL` + "/blogs/" + the 24-digit text of its identifier. */
  function BlogURL(baseURL: string, id: ObjectId): (url: string)
    ensures |url| == |baseURL| + |BlogsPath| + 24
    ensures url[..|baseURL| + |BlogsPath|] == baseURL + BlogsPath
    ensures FromHex(url[|baseURL| + |BlogsPath|..]) == Some(id)
  {
    assert (baseURL + BlogsPath + Hex(id))[|baseURL| + |BlogsPath|..] == Hex(id);
    FromHexOfHex(id);
    baseURL + BlogsPath + Hex(id)
  }

  /** The announcement for a stored post: its own fields and a link that names it. */
  function NotificationFor(blog: Blog, baseURL: string): (n: EmailData)
    ensures n.title == blog.title && n.excerpt == blog.excerpt && n.author == blog.author
    ensures n.category == blog.category && n.readTime == blog.readTime && n.tags == blog.tags
    ensures |n.blogURL| == |baseURL| + |BlogsPath| + 24
    ensures n.blogURL[..|baseURL| + |BlogsPath|] == baseURL + BlogsPath
    ensures FromHex(n.blogURL[|baseURL| + |BlogsPath|..]) == Some(blog.id)
  {
    EmailData(blog.title, blog.excerpt, blog.author, blog.category, blog.readTime, blog.tags,
              BlogURL(baseURL, blog.id))
  }

  /** The subject line: the fixed prefix, then the post's title untouched. */
  function Subject(title: string): (s: string)
    ensures |s| == |SubjectPrefix| + |title|
    ensures s[..|SubjectPrefix|] == SubjectPrefix && s[|SubjectPrefix|..] == title
  {
    SubjectPrefix + title
  }

  /** The recipients: every subscriber's address, in subscriber order. */
  function EmailsOf(subs: seq<Subscriber>): (to: seq<string>)
    ensures |to| == |subs|
    ensures forall i :: 0 <= i < |subs| ==> to[i] == subs[i].email
  {
    seq(|subs|, i requires 0 <= i < |subs| => subs[i].email)
  }

  /** What CreateBlog returns, and does outside the stores, once the post is stored. */
  datatype Outcome = Outcome(err: Option<Error>, effects: seq<Effect>)

  /**
   * The fan-out after a successful insert, given what the subscriber read
   * returned: the read always happens; the template is rendered exactly when
   * there are subscribers; one send, to all of them, happens exactly when the
   * render succeeded; the error returned is the read's or the render's.
   */
  function Notify(read: Result<seq<Subscriber>, Error>, written: Blog, baseURL: string,
                  render: (string, EmailData) -> Option<string>): (o: Outcome)
    ensures 1 <= |o.effects| <= 3 && o.effects[0] == SubscribersRead
    ensures o.err.None? <==>
      read.Ok? && (read.value == [] || render(NewBlogTemplate, NotificationFor(written, baseURL)).Some?)
    ensures o.err.Some? ==> o.err == if read.Err? then Some(read.error) else Some(RenderFailed)
    ensures (2 <= |o.effects|) <==> read.Ok? && read.value != []
    ensures 2 <= |o.effects| ==> o.effects[1] == Rendered(NewBlogTemplate, NotificationFor(written, baseURL))
    ensures (|o.effects| == 3) <==> read.Ok? && read.value != [] && o.err.None?
    ensures |o.effects| == 3 ==>
      o.effects[2] == EmailSent(EmailsOf(read.value), Subject(written.title),
                                render(NewBlogTemplate, NotificationFor(written, baseURL)).value)
  {
    match read
    case Err(e) => Outcome(Some(e), [SubscribersRead])
    case Ok(subs) =>
      if subs == [] then Outcome(None, [SubscribersRead])
      else
        var data := NotificationFor(written, baseURL);
        match render(NewBlogTemplate, data)
        case None => Outcome(Some(RenderFailed), [SubscribersRead, Rendered(NewBlogTemplate, data)])
        case Some(html) =>
          Outcome(None, [SubscribersRead, Rendered(NewBlogTemplate, data),
                         EmailSent(EmailsOf(subs), Subject(written.title), html)])
  }

  /**
   * With the subscriber read as the source writes it, a cursor that breaks
   * off after `k` of the stored subscribers still gives a successful
   * CreateBlog that mails only those `k`; with the checked read the same
   * cursor gives CursorFailed and no mail.
   */
  lemma BrokenReadMailsSome(subs: seq<Subscriber>, k: nat, written: Blog, baseURL: string,
                            render: (string, EmailData) -> Option<string>, html: string)
    requires 0 < k < |subs|
    requires render(NewBlogTemplate, NotificationFor(written, baseURL)) == Some(html)
    ensures var faults := CursorFaults(false, None, Some(k));
      && Notify(ReadAllAsWritten(subs, faults), written, baseURL, render)
         == Outcome(None, [SubscribersRead, Rendered(NewBlogTemplate, NotificationFor(written, baseURL)),
                           EmailSent(EmailsOf(subs[..k]), Subject(written.title), html)])
      && |EmailsOf(subs[..k])| < |EmailsOf(subs)|
      && Notify(ReadAll(subs, faults), written, baseURL, render) == Outcome(Some(CursorFailed), [SubscribersRead])
  {
    AsWrittenDropsSubscribers(subs, k);
  }

  /**
   * A cursor that breaks off before the first subscriber: as written,
   * CreateBlog reports success and mails no one; the checked read reports
   * CursorFailed.
   */
  lemma BrokenReadMailsNone(subs: seq<Subscriber>, written: Blog, baseURL: string,
                            render: (string, EmailData) -> Option<string>)
    requires 0 < |subs|
    ensures var faults := CursorFaults(false, None, Some(0));
      && Notify(ReadAllAsWritten(subs, faults), written, baseURL, render) == Outcome(None, [SubscribersRead])
      && Notify(ReadAll(subs, faults), written, baseURL, render) == Outcome(Some(CursorFailed), [SubscribersRead])
  {
    AsWrittenDropsSubscribers(subs, 0);
  }

  /** GetBlogByID: a malformed identifier is refused before the store is asked. */
  function GetBlogByID(blogs: seq<Blog>, idText: string): (r: Result<Blog, Error>)
    ensures FromHex(idText).None? ==> r == Err(InvalidHex)
    ensures FromHex(idText).Some? ==> r == FindByID(blogs, FromHex(idText).value)
  {
    match FromHex(idText)
    case None => Err(InvalidHex)
    case Some(id) => FindByID(blogs, id)
  }

  /** GetRelatedBlogs: a malformed identifier is refused before the store is asked. */
  function GetRelatedBlogs(blogs: seq<Blog>, idText: string, limit: int): (r: Result<seq<Blog>, Error>)
    requires limit > 0
    ensures FromHex(idText).None? ==> r == Err(InvalidHex)
    ensures FromHex(idText).Some? ==> r == FindRelated(blogs, FromHex(idText).value, limit)
  {
    match FromHex(idText)
    case None => Err(InvalidHex)
    case Some(id) => FindRelated(blogs, id, limit)
  }

  /**
   * The link in the announcement of a stored post is `baseURL` + "/blogs/"
   * + an identifier text, and looking that text up gives back the post.
   */
  lemma LinkFindsThePost(blogs: seq<Blog>, i: int, baseURL: string)
    requires UniqueIds(blogs) && 0 <= i < |blogs|
    ensures var url := NotificationFor(blogs[i], baseURL).blogURL;
      && |url| == |baseURL| + |BlogsPath| + 24
      && url[..|baseURL| + |BlogsPath|] == baseURL + BlogsPath
      && GetBlogByID(blogs, url[|baseURL| + |BlogsPath|..]) == Ok(blogs[i])
  {
    var url := NotificationFor(blogs[i], baseURL).blogURL;
    assert url[|baseURL| + |BlogsPath|..] == Hex(blogs[i].id);
    FromHexOfHex(blogs[i].id);
    FindByIDUnique(blogs, i);
  }

  /**
   * The service over a posts store and a subscribers store. `render` is the
   * template service (no result when rendering fails); `effects` records the
   * subscriber reads, renders and sends in order.
   */
  class Service {
    const repo: BlogStore
    const subscribers: SubscriberStore
    const baseURL: string
    const render: (string, EmailData) -> Option<string>
    ghost var effects: seq<Effect>

    ghost predicate Valid()
      reads this, repo, subscribers
    {
      repo.Valid() && subscribers.Valid()
    }

    constructor (repo: BlogStore, subscribers: SubscriberStore, baseURL: string,
                 render: (string, EmailData) -> Option<string>)
      requires repo.Valid() && subscribers.Valid()
      ensures Valid() && effects == []
      ensures this.repo == repo && this.subscribers == subscribers
      ensures this.baseURL == baseURL && this.render == render
    {
      this.repo := repo;
      this.subscribers := subscribers;
      this.baseURL := baseURL;
      this.render := render;
      effects := [];
    }

    /**
     * CreateBlog: store the post; on success read the subscribers (with the
     * read as the source writes it), and when there are some, render the
     * announcement and launch one send to all of them. `newId` and
     * `writeFails` are the store's answers to the insert, `cursor` its answers
     * to the subscriber read. The send's own outcome never reaches the caller.
     * A failure after the insert is returned, and the post stays stored.
     */
    method CreateBlog(blog: Blog, newId: ObjectId, writeFails: bool, cursor: CursorFaults)
      returns (written: Blog, err: Option<Error>)
      requires Valid()
      modifies this, repo
      ensures Valid()
      ensures written == blog.(id := newId)
      ensures writeFails ==> err == Some(WriteFailed)
      ensures !writeFails && newId in Ids(old(repo.blogs)) ==> err == Some(DuplicateKey)
      ensures (writeFails || newId in Ids(old(repo.blogs))) ==>
        repo.blogs == old(repo.blogs) && effects == old(effects)
      ensures !writeFails && newId !in Ids(old(repo.blogs)) ==>
        var o := Notify(ReadAllAsWritten(subscribers.subscribers, cursor), written, baseURL, render);
        && repo.blogs == old(repo.blogs) + [written]
        && err == o.err
        && effects == old(effects) + o.effects
    {
      written, err := repo.Create(blog, newId, writeFails);
      if err.Some? {
        return;
      }
      var fetched := subscribers.GetAllAsWritten(cursor);
      err := NotifySubscribers(written, fetched);
    }

    /** CreateBlog with the checked subscriber read: a broken cursor is an error, never a shorter mailing list. */
    method CreateBlogChecked(blog: Blog, newId: ObjectId, writeFails: bool, cursor: CursorFaults)
      returns (written: Blog, err: Option<Error>)
      requires Valid()
      modifies this, repo
      ensures Valid()
      ensures written == blog.(id := newId)
      ensures writeFails ==> err == Some(WriteFailed)
      ensures !writeFails && newId in Ids(old(repo.blogs)) ==> err == Some(DuplicateKey)
      ensures (writeFails || newId in Ids(old(repo.blogs))) ==>
        repo.blogs == old(repo.blogs) && effects == old(effects)
      ensures !writeFails && newId !in Ids(old(repo.blogs)) ==>
        var o := Notify(ReadAll(subscribers.subscribers, cursor), written, baseURL, render);
        && repo.blogs == old(repo.blogs) + [written]
        && err == o.err
        && effects == old(effects) + o.effects
    {
      written, err := repo.Create(blog, newId, writeFails);
      if err.Some? {
        return;
      }
      var fetched := subscribers.GetAll(cursor);
      err := NotifySubscribers(written, fetched);
    }

    /**
     * The steps of CreateBlog after the insert, given the subscriber read's
     * result: collect the addresses, build and render the announcement, and
     * launch the send.
     */
    method NotifySubscribers(written: Blog, fetched: Result<seq<Subscriber>, Error>) returns (err: Option<Error>)
      modifies this
      ensures err == Notify(fetched, written, baseURL, render).err
      ensures effects == old(effects) + Notify(fetched, written, baseURL, render).effects
    {
      effects := effects + [SubscribersRead];
      if fetched.Err? {
        return Some(fetched.error);
      }
      var subs := fetched.value;
      if |subs| == 0 {
        return None;
      }

      var emails: seq<string> := [];
      var i := 0;
      while i < |subs|
        invariant 0 <= i <= |subs|
        invariant |emails| == i
        invariant forall k :: 0 <= k < i ==> emails[k] == subs[k].email
      {
        emails := emails + [subs[i].email];
        i := i + 1;
      }
      assert emails == EmailsOf(subs);

      var data := EmailData(written.title, written.excerpt, written.author, written.category,
                            written.readTime, written.tags, baseURL + BlogsPath + Hex(written.id));
      assert data == NotificationFor(written, baseURL);
      var htmlBody := render(NewBlogTemplate, data);
      effects := effects + [Rendered(NewBlogTemplate, data)];
      if htmlBody.None? {
        return Some(RenderFailed);
      }

      var subject := SubjectPrefix + written.title;
      effects := effects + [EmailSent(emails, subject, htmlBody.value)];
      return None;
    }

    /** UpdateBlog: a malformed identifier is refused, and neither the store nor the caller's post changes. */
    method UpdateBlog(idText: string, blog: Blog, writeFails: bool) returns (written: Blog, err: Option<Error>)
      requires Valid()
      modifies repo
      ensures Valid()
      ensures FromHex(idText).None? ==> written == blog && err == Some(InvalidHex) && repo.blogs == old(repo.blogs)
      ensures FromHex(idText).Some? ==>
        var id := FromHex(idText).value;
        && written == blog.(id := id)
        && err == (if writeFails then Some(WriteFailed) else None)
        && repo.blogs == if writeFails then old(repo.blogs) else Replaced(old(repo.blogs), id, written)
    {
      var parsed := FromHex(idText);
      if parsed.None? {
        return blog, Some(InvalidHex);
      }
      written, err := repo.Update(parsed.value, blog, writeFails);
    }

    /** DeleteBlog: a malformed identifier is refused and the store does not change. */
    method DeleteBlog(idText: string, writeFails: bool) returns (err: Option<Error>)
      requires Valid()
      modifies repo
      ensures Valid()
      ensures FromHex(idText).None? ==> err == Some(InvalidHex) && repo.blogs == old(repo.blogs)
      ensures FromHex(idText).Some? ==>
        && err == (if writeFails then Some(WriteFailed) else None)
        && repo.blogs == if writeFails then old(repo.blogs) else Removed(old(repo.blogs), FromHex(idText).value)
    {
      var parsed := FromHex(idText);
      if parsed.None? {
        return Some(InvalidHex);
      }
      err := repo.Delete(parsed.value, writeFails);
    }
  }
}
