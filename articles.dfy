/**
  The blog's `posts` table and the article operations of the library that
  reads and writes it: lookup by slug, update, deletion with its cover image,
  publication and withdrawal. The table is a map from id (its primary key) to
  row; every backend statement takes its answer as a parameter, and a rejected
  statement writes nothing.
*/
module Articles {
  import opened Common
  import opened Ledger

  const Published := "published"
  const Draft := "draft"
  const CoversBucket := "covers"

  /** One row of `posts`. */
  datatype Article = Article(
    id: string,
    title: string,
    slug: string,
    content: Option<string>,
    coverImage: Option<string>,
    category: string,
    status: string,
    metaTitle: Option<string>,
    metaDescription: Option<string>,
    views: int,
    createdAt: string,
    updatedAt: string,
    publishedAt: Option<string>,
    userId: string,
    excerpt: string)

  /** `UpdateArticle` without its id: each member the caller supplies is written,
      every omitted member is left as it is. */
  datatype ArticleUpdate = ArticleUpdate(
    title: Write<string>,
    slug: Write<string>,
    content: Write<string>,
    coverImage: Write<string>,
    category: Write<string>,
    status: Write<string>,
    metaTitle: Write<string>,
    metaDescription: Write<string>)

  /** A nullable column written with a string. */
  function OverNullable(w: Write<string>, current: Option<string>): (r: Option<string>)
    ensures w.Put? ==> r == Some(w.value)
    ensures w.Keep? ==> r == current
  {
    if w.Put? then Some(w.value) else current
  }

  /** The row after `.update(updateData)`: the supplied columns take their new values;
      the id and every column the update type does not have are never written. */
  function Updated(a: Article, u: ArticleUpdate): (r: Article)
    ensures r.id == a.id && r.views == a.views && r.createdAt == a.createdAt
    ensures r.updatedAt == a.updatedAt && r.publishedAt == a.publishedAt
    ensures r.userId == a.userId && r.excerpt == a.excerpt
    ensures r.title == u.title.Over(a.title) && r.slug == u.slug.Over(a.slug)
    ensures r.category == u.category.Over(a.category) && r.status == u.status.Over(a.status)
    ensures r.content == OverNullable(u.content, a.content)
    ensures r.coverImage == OverNullable(u.coverImage, a.coverImage)
    ensures r.metaTitle == OverNullable(u.metaTitle, a.metaTitle)
    ensures r.metaDescription == OverNullable(u.metaDescription, a.metaDescription)
  {
    a.(title := u.title.Over(a.title), slug := u.slug.Over(a.slug),
       content := OverNullable(u.content, a.content),
       coverImage := OverNullable(u.coverImage, a.coverImage),
       category := u.category.Over(a.category), status := u.status.Over(a.status),
       metaTitle := OverNullable(u.metaTitle, a.metaTitle),
       metaDescription := OverNullable(u.metaDescription, a.metaDescription))
  }

  /** An update that supplies nothing leaves the row as it is. */
  lemma EmptyUpdateKeepsRow(a: Article)
    ensures Updated(a, ArticleUpdate(Keep, Keep, Keep, Keep, Keep, Keep, Keep, Keep)) == a
  {
  }

  /** `publishArticle`: status 'published', publication time now. */
  function WithPublication(a: Article, now: string): (r: Article)
    ensures r.status == Published && r.publishedAt == Some(now)
    ensures r.(status := a.status, publishedAt := a.publishedAt) == a
  {
    a.(status := Published, publishedAt := Some(now))
  }

  /** `unpublishArticle`: status 'draft', no publication time. */
  function WithoutPublication(a: Article): (r: Article)
    ensures r.status == Draft && r.publishedAt == None
    ensures r.(status := a.status, publishedAt := a.publishedAt) == a
  {
    a.(status := Draft, publishedAt := None)
  }

  /** Withdrawing a publication forgets it: the row is the one a direct withdrawal gives,
      and publishing after a withdrawal is a plain publication. */
  lemma LaterPublicationWins(a: Article, now: string)
    ensures WithoutPublication(WithPublication(a, now)) == WithoutPublication(a)
    ensures WithPublication(WithoutPublication(a), now) == WithPublication(a, now)
  {
  }

  /** The ids of the rows carrying a slug. */
  function SlugIds(rows: map<string, Article>, slug: string): (ids: set<string>)
    ensures forall id :: id in ids <==> id in rows && rows[id].slug == slug
  {
    set id | id in rows && rows[id].slug == slug
  }

  /** The table invariant: every row is stored under its own id. */
  predicate KeyedById(rows: map<string, Article>) {
    forall id :: id in rows ==> rows[id].id == id
  }

  /** The `posts` table. */
  class PostsTable {
    var rows: map<string, Article>

    predicate Valid()
      reads this
    {
      KeyedById(rows)
    }

    constructor (initial: map<string, Article>)
      requires KeyedById(initial)
      ensures Valid() && rows == initial
    {
      rows := initial;
    }

    /** `getArticleBySlug(slug)`: `.eq('slug', slug).single()` returns the row when exactly
        one has that slug, and throws otherwise. */
    method GetArticleBySlug(slug: string, backend: Outcome) returns (r: Result<Article>)
      requires Valid()
      ensures r.Ok? <==> backend.Success? && |SlugIds(rows, slug)| == 1
      ensures r.Ok? ==> r.value.id in rows && rows[r.value.id] == r.value && r.value.slug == slug
      ensures r.Ok? ==> SlugIds(rows, slug) == {r.value.id}
      ensures backend.Failure? ==> r == Err(backend.message)
      ensures backend.Success? && |SlugIds(rows, slug)| != 1 ==> r == Err(SingleRowError)
    {
      if backend.Failure? {
        return Err(backend.message);
      }
      var ids := SlugIds(rows, slug);
      if |ids| != 1 {
        return Err(SingleRowError);
      }
      var id :| id in ids;
      assert ids == {id} by {
        assert |ids - {id}| == 0;
        assert ids - {id} == {};
      }
      return Ok(rows[id]);
    }

    /** `updateArticle(article)`: the id is taken out and used only to select the row;
        `.single()` fails when no row has that id. */
    method UpdateArticle(id: string, u: ArticleUpdate, backend: Outcome) returns (r: Result<Article>)
      requires Valid()
      modifies this
      ensures Valid()
      ensures backend.Success? && id in old(rows) ==>
                rows == old(rows)[id := Updated(old(rows)[id], u)] && r == Ok(rows[id])
      ensures backend.Success? && id !in old(rows) ==> rows == old(rows) && r == Err(SingleRowError)
      ensures backend.Failure? ==> rows == old(rows) && r == Err(backend.message)
    {
      if backend.Failure? {
        return Err(backend.message);
      }
      if id !in rows {
        return Err(SingleRowError);
      }
      rows := rows[id := Updated(rows[id], u)];
      return Ok(rows[id]);
    }

    /** `deleteArticle(id, coverImagePath)`: the cover is removed from the 'covers' bucket
        first, only when a path is given; a failed removal is ignored and the row is
        deleted all the same. `removal` is the bucket's answer. */
    method DeleteArticle(id: string, coverImagePath: Option<string>, removal: Outcome, backend: Outcome)
      returns (removed: Option<(string, string)>, error: Option<string>)
      requires Valid()
      modifies this
      ensures Valid()
      ensures removed.Some? <==> Present(coverImagePath)
      ensures removed.Some? ==> removed.value == (CoversBucket, coverImagePath.value)
      ensures backend.Success? ==> rows == old(rows) - {id} && error == None
      ensures backend.Failure? ==> rows == old(rows) && error == Some(backend.message)
    {
      removed := None;
      if Present(coverImagePath) {
        // a failed removal (`removal.Failure?`) is only logged
        removed := Some((CoversBucket, coverImagePath.value));
      }
      if backend.Failure? {
        error := Some(backend.message);
      } else {
        rows := rows - {id};
        error := None;
      }
    }

    /** `publishArticle(id)`. */
    method PublishArticle(id: string, now: string, backend: Outcome) returns (r: Result<Article>)
      requires Valid()
      modifies this
      ensures Valid()
      ensures backend.Success? && id in old(rows) ==>
                rows == old(rows)[id := WithPublication(old(rows)[id], now)] && r == Ok(rows[id])
      ensures backend.Success? && id !in old(rows) ==> rows == old(rows) && r == Err(SingleRowError)
      ensures backend.Failure? ==> rows == old(rows) && r == Err(backend.message)
    {
      if backend.Failure? {
        return Err(backend.message);
      }
      if id !in rows {
        return Err(SingleRowError);
      }
      rows := rows[id := WithPublication(rows[id], now)];
      return Ok(rows[id]);
    }

    /** `unpublishArticle(id)`. */
    method UnpublishArticle(id: string, backend: Outcome) returns (r: Result<Article>)
      requires Valid()
      modifies this
      ensures Valid()
      ensures backend.Success? && id in old(rows) ==>
                rows == old(rows)[id := WithoutPublication(old(rows)[id])] && r == Ok(rows[id])
      ensures backend.Success? && id !in old(rows) ==> rows == old(rows) && r == Err(SingleRowError)
      ensures backend.Failure? ==> rows == old(rows) && r == Err(backend.message)
    {
      if backend.Failure? {
        return Err(backend.message);
      }
      if id !in rows {
        return Err(SingleRowError);
      }
      rows := rows[id := WithoutPublication(rows[id])];
      return Ok(rows[id]);
    }
  }
}
