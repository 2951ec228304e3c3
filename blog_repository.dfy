/**
 * The blog collection: an ordered sequence of posts (the store's natural
 * order), the writes that change it, and the queries over it.
 */
module BlogRepository {
  import opened Wrappers
  import opened ObjectIds
  import opened Strings
  import opened Seqs
  import opened Domain

  /** The category that stands for "no category filter". */
  const AllCategory: string := "All"

  function Ids(blogs: seq<Blog>): set<ObjectId> {
    set b | b in blogs :: b.id
  }

  /** The store's unique index on `_id`. */
  ghost predicate UniqueIds(blogs: seq<Blog>) {
    forall i, j :: 0 <= i < j < |blogs| ==> blogs[i].id != blogs[j].id
  }

  /** The first post with identifier `id`, or NoDocuments. */
  function FindByID(blogs: seq<Blog>, id: ObjectId): (r: Result<Blog, Error>)
    ensures r.Ok? <==> id in Ids(blogs)
    ensures r.Ok? ==> r.value in blogs && r.value.id == id
    ensures r.Err? ==> r.error == NoDocuments
  {
    if blogs == [] then Err(NoDocuments)
    else if blogs[0].id == id then Ok(blogs[0])
    else
      assert blogs == [blogs[0]] + blogs[1..];
      FindByID(blogs[1..], id)
  }

  /** With unique identifiers, looking up a stored post's identifier gives that post. */
  lemma FindByIDUnique(blogs: seq<Blog>, i: int)
    requires UniqueIds(blogs) && 0 <= i < |blogs|
    ensures FindByID(blogs, blogs[i].id) == Ok(blogs[i])
  {
    var r := FindByID(blogs, blogs[i].id);
    var j :| 0 <= j < |blogs| && blogs[j] == r.value;
    assert blogs[j].id == blogs[i].id;
  }

  lemma {:induction false} FindByIDAppend(blogs: seq<Blog>, b: Blog, q: ObjectId)
    requires b.id !in Ids(blogs)
    ensures FindByID(blogs + [b], q) == if q == b.id then Ok(b) else FindByID(blogs, q)
  {
    if blogs != [] {
      assert (blogs + [b])[1..] == blogs[1..] + [b];
      FindByIDAppend(blogs[1..], b, q);
    }
  }

  /** `Create` inserted `b`, whose identifier was not yet taken: it is found, nothing else moved. */
  lemma CreatedIsFound(blogs: seq<Blog>, b: Blog)
    requires UniqueIds(blogs) && b.id !in Ids(blogs)
    ensures UniqueIds(blogs + [b])
    ensures FindByID(blogs + [b], b.id) == Ok(b)
    ensures forall q :: q != b.id ==> FindByID(blogs + [b], q) == FindByID(blogs, q)
  {
    forall q ensures FindByID(blogs + [b], q) == if q == b.id then Ok(b) else FindByID(blogs, q) {
      FindByIDAppend(blogs, b, q);
    }
    var s := blogs + [b];
    forall i, j | 0 <= i < j < |s| ensures s[i].id != s[j].id {
      if j == |blogs| {
        assert s[i] in blogs;
      }
    }
  }

  /** The store after `UpdateOne` with filter `_id == id` and `$set: b`. */
  function Replaced(blogs: seq<Blog>, id: ObjectId, b: Blog): (r: seq<Blog>)
    ensures |r| == |blogs|
    ensures forall i :: 0 <= i < |blogs| ==> r[i] == if blogs[i].id == id then b else blogs[i]
  {
    if blogs == [] then []
    else [if blogs[0].id == id then b else blogs[0]] + Replaced(blogs[1..], id, b)
  }

  /**
   * After replacing the post with identifier `id` by `b` (which carries that
   * identifier), looking up `id` gives `b` when the post existed and
   * NoDocuments otherwise; every other lookup is as before.
   */
  lemma {:induction false} FindInReplaced(blogs: seq<Blog>, id: ObjectId, b: Blog, q: ObjectId)
    requires b.id == id
    ensures FindByID(Replaced(blogs, id, b), q) ==
      if q != id then FindByID(blogs, q)
      else if id in Ids(blogs) then Ok(b)
      else Err(NoDocuments)
  {
    if blogs != [] {
      var r := Replaced(blogs, id, b);
      assert r[1..] == Replaced(blogs[1..], id, b);
      assert Ids(blogs) == {blogs[0].id} + Ids(blogs[1..]) by {
        assert blogs == [blogs[0]] + blogs[1..];
      }
      FindInReplaced(blogs[1..], id, b, q);
    }
  }

  /** Update: the record at `id` takes the new contents; with no record at `id` nothing changes. */
  lemma UpdatedIsFound(blogs: seq<Blog>, id: ObjectId, b: Blog)
    requires UniqueIds(blogs) && b.id == id
    ensures UniqueIds(Replaced(blogs, id, b))
    ensures FindByID(Replaced(blogs, id, b), id) == if id in Ids(blogs) then Ok(b) else Err(NoDocuments)
    ensures forall q :: q != id ==> FindByID(Replaced(blogs, id, b), q) == FindByID(blogs, q)
    ensures id !in Ids(blogs) ==> Replaced(blogs, id, b) == blogs
  {
    forall q ensures FindByID(Replaced(blogs, id, b), q) ==
      if q != id then FindByID(blogs, q) else if id in Ids(blogs) then Ok(b) else Err(NoDocuments)
    {
      FindInReplaced(blogs, id, b, q);
    }
    var r := Replaced(blogs, id, b);
    forall i, j | 0 <= i < j < |r| ensures r[i].id != r[j].id {
      assert blogs[i].id != blogs[j].id;
    }
    if id !in Ids(blogs) {
      assert forall i | 0 <= i < |blogs| :: blogs[i].id != id by {
        forall i | 0 <= i < |blogs| ensures blogs[i].id != id {
          assert blogs[i] in blogs;
        }
      }
    }
  }

  /** The store after `DeleteOne` with filter `_id == id`. */
  function Removed(blogs: seq<Blog>, id: ObjectId): (r: seq<Blog>)
    ensures forall b :: b in r <==> b in blogs && b.id != id
    ensures Subsequence(r, blogs)
  {
    Filter(blogs, (b: Blog) => b.id != id)
  }

  lemma {:induction false} FindInRemoved(blogs: seq<Blog>, id: ObjectId, q: ObjectId)
    ensures FindByID(Removed(blogs, id), q) == if q == id then Err(NoDocuments) else FindByID(blogs, q)
  {
    if blogs != [] {
      FindInRemoved(blogs[1..], id, q);
    }
  }

  /**
   * Delete: afterwards `id` is not found, every other lookup is as before, at
   * most the one record is gone, and deleting an absent identifier changes nothing.
   */
  lemma DeletedIsGone(blogs: seq<Blog>, id: ObjectId)
    requires UniqueIds(blogs)
    ensures UniqueIds(Removed(blogs, id))
    ensures FindByID(Removed(blogs, id), id) == Err(NoDocuments)
    ensures forall q :: q != id ==> FindByID(Removed(blogs, id), q) == FindByID(blogs, q)
    ensures |Removed(blogs, id)| == if id in Ids(blogs) then |blogs| - 1 else |blogs|
    ensures id !in Ids(blogs) ==> Removed(blogs, id) == blogs
  {
    var p := (b: Blog) => b.id != id;
    var r := Removed(blogs, id);
    forall q ensures FindByID(r, q) == if q == id then Err(NoDocuments) else FindByID(blogs, q) {
      FindInRemoved(blogs, id, q);
    }
    assert NoDups(blogs) by {
      forall i, j | 0 <= i < j < |blogs| ensures blogs[i] != blogs[j] {
        assert blogs[i].id != blogs[j].id;
      }
    }
    FilterNoDups(blogs, p);
    forall i, j | 0 <= i < j < |r| ensures r[i].id != r[j].id {
      assert r[i] != r[j];
      assert r[i] in r && r[j] in r;
      RemovedIdsUnique(blogs, id, r[i], r[j]);
    }
    if id in Ids(blogs) {
      var k :| 0 <= k < |blogs| && blogs[k].id == id;
      RemovedLength(blogs, id, k);
    } else {
      FilterKeepsAll(blogs, p);
    }
  }

  lemma RemovedIdsUnique(blogs: seq<Blog>, id: ObjectId, x: Blog, y: Blog)
    requires UniqueIds(blogs) && x != y && x in blogs && y in blogs
    ensures x.id != y.id
  {
    var i :| 0 <= i < |blogs| && blogs[i] == x;
    var j :| 0 <= j < |blogs| && blogs[j] == y;
    if i < j { assert blogs[i].id != blogs[j].id; }
    if j < i { assert blogs[j].id != blogs[i].id; }
  }

  lemma {:induction false} RemovedLength(blogs: seq<Blog>, id: ObjectId, k: int)
    requires UniqueIds(blogs) && 0 <= k < |blogs| && blogs[k].id == id
    ensures |Removed(blogs, id)| == |blogs| - 1
  {
    var t := blogs[1..];
    assert UniqueIds(t) by {
      forall i, j | 0 <= i < j < |t| ensures t[i].id != t[j].id {
        assert t[i] == blogs[i + 1] && t[j] == blogs[j + 1];
      }
    }
    if k == 0 {
      forall x | x in t ensures x.id != id {
        var j :| 0 <= j < |t| && t[j] == x;
        assert blogs[j + 1] == x;
      }
      FilterKeepsAll(t, (b: Blog) => b.id != id);
    } else {
      assert blogs[0].id != blogs[k].id;
      RemovedLength(t, id, k - 1);
    }
  }

  /** A store with unique identifiers holds no post twice. */
  lemma UniqueIdsNoDups(blogs: seq<Blog>)
    requires UniqueIds(blogs)
    ensures NoDups(blogs)
  {
    forall i, j | 0 <= i < j < |blogs| ensures blogs[i] != blogs[j] {
      assert blogs[i].id != blogs[j].id;
    }
  }

  /** The whole collection, in store order. */
  function FindAll(blogs: seq<Blog>): (r: seq<Blog>)
    ensures |r| == |blogs|
    ensures forall i :: 0 <= i < |blogs| ==> r[i] == blogs[i]
  {
    blogs
  }

  /** The posts flagged as featured, in store order. */
  function FindFeatured(blogs: seq<Blog>): (r: seq<Blog>)
    ensures forall b :: b in r <==> b in blogs && b.featured
    ensures Subsequence(r, blogs)
  {
    Filter(blogs, (b: Blog) => b.featured)
  }

  /** The posts of one category, in store order; the category "All" selects every post. */
  function FindByCategory(blogs: seq<Blog>, category: string): (r: seq<Blog>)
    ensures category == AllCategory ==> r == FindAll(blogs)
    ensures category != AllCategory ==> Subsequence(r, blogs)
    ensures category != AllCategory ==> forall b :: b in r <==> b in blogs && b.category == category
  {
    if category == AllCategory then blogs
    else Filter(blogs, (b: Blog) => b.category == category)
  }

  /** The `$or` of the four case-insensitive `$regex` conditions of Search. */
  predicate MatchesQuery(b: Blog, query: string) {
    || PatternMatches(query, b.title)
    || PatternMatches(query, b.excerpt)
    || PatternMatches(query, b.content)
    || exists t :: t in b.tags && PatternMatches(query, t)
  }

  /** The posts whose title, excerpt, content or one of whose tags matches `query`, in store order. */
  function Search(blogs: seq<Blog>, query: string): (r: seq<Blog>)
    ensures Subsequence(r, blogs)
    ensures forall b :: b in r <==>
      && b in blogs
      && (|| PatternMatches(query, b.title)
          || PatternMatches(query, b.excerpt)
          || PatternMatches(query, b.content)
          || exists t :: t in b.tags && PatternMatches(query, t))
  {
    Filter(blogs, (b: Blog) => MatchesQuery(b, query))
  }

  /** An empty query selects the whole collection. */
  lemma SearchEmptyQuery(blogs: seq<Blog>)
    ensures Search(blogs, "") == blogs
  {
    forall b | b in blogs ensures MatchesQuery(b, "") {
      EmptyPatternMatchesAll(b.title);
    }
    FilterKeepsAll(blogs, (b: Blog) => MatchesQuery(b, ""));
  }

  /** Search does not depend on the letter case of the query. */
  lemma SearchIgnoresCase(blogs: seq<Blog>, query: string)
    ensures Search(blogs, Fold(query)) == Search(blogs, query)
  {
    forall b: Blog ensures MatchesQuery(b, Fold(query)) == MatchesQuery(b, query) {
      PatternMatchIgnoresCase(query, b.title);
      PatternMatchIgnoresCase(query, b.excerpt);
      PatternMatchIgnoresCase(query, b.content);
      forall t ensures PatternMatches(Fold(query), t) == PatternMatches(query, t) {
        PatternMatchIgnoresCase(query, t);
      }
    }
    FilterCongruent(blogs, (b: Blog) => MatchesQuery(b, Fold(query)), (b: Blog) => MatchesQuery(b, query));
  }

  /** `a` may come before `b` when sorting on `date` descending. */
  predicate NewerOrSame(a: Blog, b: Blog) {
    LexLe(b.date, a.date)
  }

  lemma NewerOrSameIsTotalPreorder()
    ensures TotalPreorder(NewerOrSame)
  {
    forall a: Blog, b: Blog ensures NewerOrSame(a, b) || NewerOrSame(b, a) {
      LexLeTotal(a.date, b.date);
    }
    forall a: Blog, b: Blog, c: Blog | NewerOrSame(a, b) && NewerOrSame(b, c)
      ensures NewerOrSame(a, c)
    {
      LexLeTransitive(c.date, b.date, a.date);
    }
  }

  /**
   * The `limit` most recent posts: sorted on the date string descending and
   * truncated; every post left out is dated at or before the last one returned.
   */
  function FindRecent(blogs: seq<Blog>, limit: int): (r: seq<Blog>)
    requires limit > 0
    ensures |r| == if limit < |blogs| then limit else |blogs|
    ensures multiset(r) <= multiset(blogs)
    ensures forall i, j :: 0 <= i < j < |r| ==> LexLe(r[j].date, r[i].date)
    ensures forall b :: b in blogs && b !in r ==> |r| == limit && LexLe(b.date, r[limit - 1].date)
  {
    var sorted := SortDesc(blogs, NewerOrSame);
    NewerOrSameIsTotalPreorder();
    SortDescSorted(blogs, NewerOrSame);
    SortDescLength(blogs, NewerOrSame);
    TakeMultiset(sorted, limit);
    TakeOfSorted(sorted, NewerOrSame, limit);
    RankedOmissions(blogs, sorted, NewerOrSame, limit);
    Take(sorted, limit)
  }

  /** Moves the omission fact of TakeOfSorted from positions in the sorted sequence to members of the input. */
  lemma RankedOmissions<T>(s: seq<T>, sorted: seq<T>, above: (T, T) -> bool, n: nat)
    requires multiset(sorted) == multiset(s) && SortedBy(sorted, above) && n > 0
    ensures forall x :: x in s && x !in Take(sorted, n) ==> |Take(sorted, n)| == n && above(sorted[n - 1], x)
  {
    TakeOfSorted(sorted, above, n);
    forall x | x in s && x !in Take(sorted, n)
      ensures |Take(sorted, n)| == n && above(sorted[n - 1], x)
    {
      assert x in multiset(sorted);
      var k :| 0 <= k < |sorted| && sorted[k] == x;
    }
  }

  predicate SharesTag(a: seq<string>, b: seq<string>) {
    exists t :: t in a && t in b
  }

  /** The `$or` of FindRelated: the same category, or a tag in common (`$in`). */
  predicate RelatedTo(b: Blog, current: Blog) {
    b.category == current.category || SharesTag(b.tags, current.tags)
  }

  /**
   * Up to `limit` other posts related to the post at `id`, in store order;
   * NoDocuments when there is no post at `id`.
   */
  function FindRelated(blogs: seq<Blog>, id: ObjectId, limit: int): (r: Result<seq<Blog>, Error>)
    requires limit > 0
    ensures r.Err? <==> id !in Ids(blogs)
    ensures r.Err? ==> r.error == NoDocuments
    ensures r.Ok? ==> |r.value| <= limit && Subsequence(r.value, blogs)
    ensures r.Ok? ==> forall b :: b in r.value ==> b.id != id && RelatedTo(b, FindByID(blogs, id).value)
    ensures r.Ok? ==> forall b :: b in blogs && b.id != id && RelatedTo(b, FindByID(blogs, id).value) && b !in r.value ==>
      |r.value| == limit
  {
    match FindByID(blogs, id)
    case Err(e) => Err(e)
    case Ok(current) =>
      RelatedFacts(blogs, id, current, limit);
      Ok(Take(RelatedPosts(blogs, id, current), limit))
  }

  /** The `$ne` / `$or` filter of FindRelated, before `SetLimit`. */
  function RelatedPosts(blogs: seq<Blog>, id: ObjectId, current: Blog): seq<Blog> {
    Filter(blogs, (b: Blog) => b.id != id && RelatedTo(b, current))
  }

  lemma RelatedFacts(blogs: seq<Blog>, id: ObjectId, current: Blog, limit: nat)
    ensures var top := Take(RelatedPosts(blogs, id, current), limit);
      && |top| <= limit
      && Subsequence(top, blogs)
      && (forall b :: b in top ==> b.id != id && RelatedTo(b, current))
      && (forall b :: b in blogs && b.id != id && RelatedTo(b, current) && b !in top ==> |top| == limit)
  {
    var related := RelatedPosts(blogs, id, current);
    var top := Take(related, limit);
    PrefixSubsequence(related, |top|);
    SubsequenceTransitive(top, related, blogs);
    TakeOmissions(related, limit);
    assert forall b :: b in top ==> b in related;
  }

  lemma TakeOmissions<T>(s: seq<T>, n: nat)
    ensures forall x :: x in s && x !in Take(s, n) ==> |Take(s, n)| == n
  {
  }

  /** The `category` field of every post, in store order. */
  function Categories(blogs: seq<Blog>): (cs: seq<string>)
    ensures |cs| == |blogs|
    ensures forall i :: 0 <= i < |blogs| ==> cs[i] == blogs[i].category
  {
    seq(|blogs|, i requires 0 <= i < |blogs| => blogs[i].category)
  }

  function StoredCategories(blogs: seq<Blog>): set<string> {
    set b | b in blogs :: b.category
  }

  lemma CategoriesSet(blogs: seq<Blog>)
    ensures (set c | c in Categories(blogs)) == StoredCategories(blogs)
    ensures forall c :: c in Categories(blogs) <==> c in StoredCategories(blogs)
  {
    var cs := Categories(blogs);
    forall c | c in cs ensures c in StoredCategories(blogs) {
      var i :| 0 <= i < |cs| && cs[i] == c;
      assert blogs[i] in blogs;
    }
    forall c | c in StoredCategories(blogs) ensures c in cs {
      var b :| b in blogs && b.category == c;
      var i :| 0 <= i < |blogs| && blogs[i] == b;
      assert cs[i] == c;
    }
  }

  /** The distinct categories, in order of first appearance. */
  function DistinctCategories(blogs: seq<Blog>): (d: seq<string>)
    ensures NoDups(d)
    ensures forall c :: c in d <==> c in StoredCategories(blogs)
    ensures |d| == |StoredCategories(blogs)|
  {
    var d := Distinct(Categories(blogs));
    CategoriesSet(blogs);
    NoDupsCardinality(d);
    assert (set c | c in d) == (set c | c in Categories(blogs));
    d
  }

  /**
   * "All" followed by every distinct stored category once. A stored category
   * that is itself named "All" is listed again after the first position.
   */
  function GetCategories(blogs: seq<Blog>): (r: seq<string>)
    ensures |r| == 1 + |StoredCategories(blogs)|
    ensures r[0] == AllCategory
    ensures NoDups(r[1..])
    ensures forall c :: c in r[1..] <==> exists b :: b in blogs && b.category == c
  {
    var r := [AllCategory] + DistinctCategories(blogs);
    assert r[1..] == DistinctCategories(blogs);
    r
  }

  /** One row of the `$group` stage: a category and its number of posts. */
  datatype CategoryCount = CategoryCount(category: string, count: nat)

  /** How many posts have category `c`. */
  function PostCount(blogs: seq<Blog>, c: string): nat {
    multiset(Categories(blogs))[c]
  }

  /** The `$group` stage: one row per distinct category, with its post count. */
  function Groups(blogs: seq<Blog>): (g: seq<CategoryCount>)
    ensures NoDups(g)
    ensures |g| == |StoredCategories(blogs)|
    ensures forall e :: e in g <==> e.category in StoredCategories(blogs) && e.count == PostCount(blogs, e.category)
  {
    var d := DistinctCategories(blogs);
    var g := seq(|d|, i requires 0 <= i < |d| => CategoryCount(d[i], PostCount(blogs, d[i])));
    assert forall e :: e in g <==> e.category in d && e.count == PostCount(blogs, e.category) by {
      forall e: CategoryCount | e.category in d && e.count == PostCount(blogs, e.category) ensures e in g {
        var i :| 0 <= i < |d| && d[i] == e.category;
        assert g[i] == e;
      }
    }
    assert NoDups(g) by {
      forall i, j | 0 <= i < j < |g| ensures g[i] != g[j] {
        assert d[i] != d[j];
      }
    }
    g
  }

  /** `a` may come before `b` when sorting on `count` descending. */
  predicate MoreOrSamePosts(a: CategoryCount, b: CategoryCount) {
    a.count >= b.count
  }

  lemma MoreOrSamePostsIsTotalPreorder()
    ensures TotalPreorder(MoreOrSamePosts)
  {
  }

  /** The rows that survive `$sort` on `count` descending and `$limit`. */
  function Ranked(blogs: seq<Blog>, limit: int): (top: seq<CategoryCount>)
    requires limit > 0
    ensures |top| <= limit
    ensures multiset(top) <= multiset(Groups(blogs))
  {
    var sorted := SortDesc(Groups(blogs), MoreOrSamePosts);
    TakeMultiset(sorted, limit);
    Take(sorted, limit)
  }

  lemma RankedFacts(blogs: seq<Blog>, limit: int)
    requires limit > 0
    ensures var top := Ranked(blogs, limit);
      && |top| == (if limit < |StoredCategories(blogs)| then limit else |StoredCategories(blogs)|)
      && NoDups(top)
      && (forall e :: e in top ==> e.category in StoredCategories(blogs) && e.count == PostCount(blogs, e.category))
      && SortedBy(top, MoreOrSamePosts)
      && (forall e :: e in Groups(blogs) && e !in top ==> |top| == limit && MoreOrSamePosts(top[limit - 1], e))
  {
    var g := Groups(blogs);
    var sorted := SortDesc(g, MoreOrSamePosts);
    var top := Take(sorted, limit);
    MoreOrSamePostsIsTotalPreorder();
    SortDescSorted(g, MoreOrSamePosts);
    SortDescLength(g, MoreOrSamePosts);
    PermutationNoDups(g, sorted);
    PrefixNoDups(sorted, |top|);
    TakeMultiset(sorted, limit);
    forall e | e in top ensures e in g {
      assert e in multiset(top);
    }
    RankedOmissions(g, sorted, MoreOrSamePosts, limit);
  }

  lemma PrefixNoDups<T>(s: seq<T>, n: nat)
    requires NoDups(s) && n <= |s|
    ensures NoDups(s[..n])
  {
  }

  /**
   * Up to `limit` distinct stored categories by post count, largest first;
   * every category left out has at most as many posts as the last one returned.
   */
  function GetPopularCategories(blogs: seq<Blog>, limit: int): (r: seq<string>)
    requires limit > 0
    ensures |r| == if limit < |StoredCategories(blogs)| then limit else |StoredCategories(blogs)|
    ensures NoDups(r)
    ensures forall c :: c in r ==> c in StoredCategories(blogs)
    ensures forall i, j :: 0 <= i < j < |r| ==> PostCount(blogs, r[i]) >= PostCount(blogs, r[j])
    ensures forall c :: c in StoredCategories(blogs) && c !in r ==>
      |r| == limit && PostCount(blogs, c) <= PostCount(blogs, r[limit - 1])
  {
    PopularFacts(blogs, limit);
    Names(Ranked(blogs, limit))
  }

  /** The `_id` (category) of each result row, as the final loop copies them. */
  function Names(rows: seq<CategoryCount>): (r: seq<string>)
    ensures |r| == |rows|
    ensures forall i :: 0 <= i < |rows| ==> r[i] == rows[i].category
  {
    seq(|rows|, i requires 0 <= i < |rows| => rows[i].category)
  }

  lemma PopularFacts(blogs: seq<Blog>, limit: int)
    requires limit > 0
    ensures var r := Names(Ranked(blogs, limit));
      && |r| == (if limit < |StoredCategories(blogs)| then limit else |StoredCategories(blogs)|)
      && NoDups(r)
      && (forall c :: c in r ==> c in StoredCategories(blogs))
      && (forall i, j :: 0 <= i < j < |r| ==> PostCount(blogs, r[i]) >= PostCount(blogs, r[j]))
      && (forall c :: c in StoredCategories(blogs) && c !in r ==>
            |r| == limit && PostCount(blogs, c) <= PostCount(blogs, r[limit - 1]))
  {
    var top := Ranked(blogs, limit);
    var r := Names(top);
    RankedFacts(blogs, limit);
    assert forall i :: 0 <= i < |top| ==> top[i].count == PostCount(blogs, r[i]) && r[i] in StoredCategories(blogs) by {
      forall i | 0 <= i < |top| ensures top[i].count == PostCount(blogs, r[i]) && r[i] in StoredCategories(blogs) {
        assert top[i] in top;
      }
    }
    assert NoDups(r) by {
      forall i, j | 0 <= i < j < |r| ensures r[i] != r[j] {
        assert top[i] != top[j];
      }
    }
    forall c | c in StoredCategories(blogs) && c !in r
      ensures |r| == limit && PostCount(blogs, c) <= PostCount(blogs, r[limit - 1])
    {
      var e := CategoryCount(c, PostCount(blogs, c));
      assert e in Groups(blogs);
      assert e !in top by {
        forall i | 0 <= i < |top| ensures top[i] != e {
          assert r[i] != c;
        }
      }
    }
  }

  /** Two posts in category "Tech": the single most popular category is "Tech". */
  lemma TwoTechPostsPopular(a: Blog, b: Blog)
    requires a.category == "Tech" && b.category == "Tech"
    ensures GetPopularCategories([a, b], 1) == ["Tech"]
  {
    var blogs := [a, b];
    assert StoredCategories(blogs) == {"Tech"};
    var r := GetPopularCategories(blogs, 1);
    assert r[0] in StoredCategories(blogs);
    assert r == [r[0]];
  }

  /** Two posts in category "Tech" with different identifiers: each is the other's related post. */
  lemma TwoTechPostsRelated(a: Blog, b: Blog)
    requires a.category == "Tech" && b.category == "Tech" && a.id != b.id
    ensures FindRelated([a, b], a.id, 5) == Ok([b])
  {
    var blogs := [a, b];
    assert FindByID(blogs, a.id) == Ok(a);
    var p := (x: Blog) => x.id != a.id && RelatedTo(x, a);
    assert blogs[1..] == [b];
    assert [b][1..] == [];
    assert Filter([b], p) == [b];
    assert Filter(blogs, p) == [b];
  }

  /**
   * The posts collection. `blogs` is its contents in natural order; the
   * queries above are functions of it.
   */
  class BlogStore {
    var blogs: seq<Blog>

    ghost predicate Valid()
      reads this
    {
      UniqueIds(blogs)
    }

    constructor ()
      ensures Valid() && blogs == []
    {
      blogs := [];
    }

    /**
     * Create: writes `newId`, the identifier the driver generates, into the
     * caller's post and inserts it. `written` is the caller's post afterwards:
     * it carries the new identifier even when the insert fails.
     */
    method Create(blog: Blog, newId: ObjectId, writeFails: bool) returns (written: Blog, err: Option<Error>)
      requires Valid()
      modifies this
      ensures Valid()
      ensures written == blog.(id := newId)
      ensures err == if writeFails then Some(WriteFailed)
                     else if newId in Ids(old(blogs)) then Some(DuplicateKey)
                     else None
      ensures blogs == if err.None? then old(blogs) + [written] else old(blogs)
    {
      written := blog.(id := newId);
      if writeFails {
        err := Some(WriteFailed);
      } else if newId in Ids(blogs) {
        err := Some(DuplicateKey);
      } else {
        CreatedIsFound(blogs, written);
        blogs := blogs + [written];
        err := None;
      }
    }

    /**
     * Update: forces the caller's post to carry `id` and overwrites the record
     * with that identifier. No record at `id` is not an error (no upsert).
     */
    method Update(id: ObjectId, blog: Blog, writeFails: bool) returns (written: Blog, err: Option<Error>)
      requires Valid()
      modifies this
      ensures Valid()
      ensures written == blog.(id := id)
      ensures err == if writeFails then Some(WriteFailed) else None
      ensures blogs == if writeFails then old(blogs) else Replaced(old(blogs), id, written)
    {
      written := blog.(id := id);
      if writeFails {
        err := Some(WriteFailed);
      } else {
        UpdatedIsFound(blogs, id, written);
        blogs := Replaced(blogs, id, written);
        err := None;
      }
    }

    /** Delete: removes the record with identifier `id`; an absent `id` is not an error. */
    method Delete(id: ObjectId, writeFails: bool) returns (err: Option<Error>)
      requires Valid()
      modifies this
      ensures Valid()
      ensures err == if writeFails then Some(WriteFailed) else None
      ensures blogs == if writeFails then old(blogs) else Removed(old(blogs), id)
    {
      if writeFails {
        err := Some(WriteFailed);
      } else {
        DeletedIsGone(blogs, id);
        blogs := Removed(blogs, id);
        err := None;
      }
    }
  }
}
