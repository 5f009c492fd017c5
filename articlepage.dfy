/**
 * The article page: the not-found view, the storage key of the article's
 * comments, the comment form's validation, and the comment list that is read
 * from and written back to the browser's key-value store.
 */
module ArticlePage {

  import opened Wrappers
  import opened Seqs
  import opened Text
  import Content
  import App

  /** A posted comment; `id` and `date` come from the browser when it is posted. */
  datatype Comment = Comment(id: string, name: string, text: string, date: string)

  /** The name shown for a comment posted without one. */
  const Anonymous := "Anonymous"

  /** `name.trim() || 'Anonymous'`. */
  function DisplayName(name: string): (r: string)
    ensures AllWhitespace(name) ==> r == Anonymous
    ensures !AllWhitespace(name) ==> r == Trim(name) && r != []
  {
    var who := Trim(name);
    if who == [] then Anonymous else who
  }

  /**
   * The comment form's submit: a body that is empty after trimming is
   * rejected; otherwise the comment carries the trimmed body and the trimmed
   * name, or `Anonymous` when the trimmed name is empty.
   */
  function NewComment(name: string, text: string, id: string, date: string): (r: Option<Comment>)
    ensures r.None? <==> AllWhitespace(text)
    ensures r.Some? ==> r.value == Comment(id, DisplayName(name), Trim(text), date)
    ensures r.Some? ==> r.value.text != [] && !IsWhitespace(r.value.text[0])
                        && !IsWhitespace(r.value.text[|r.value.text| - 1])
  {
    var body := Trim(text);
    if body == [] then None else Some(Comment(id, DisplayName(name), body, date))
  }

  /** Posting the same words with padding around them gives the same comment. */
  lemma NewCommentIgnoresPadding(pre: string, name: string, text: string, post: string, id: string, date: string)
    requires AllWhitespace(pre) && AllWhitespace(post)
    ensures NewComment(pre + name + post, pre + text + post, id, date) == NewComment(name, text, id, date)
  {
    TrimPadded(pre, name, post);
    TrimPadded(pre, text, post);
  }

  /** The comment form: the name and body fields as typed. */
  class CommentForm {
    var name: string
    var text: string

    constructor ()
      ensures name == "" && text == ""
    {
      name := "";
      text := "";
    }

    method Type(newName: string, newText: string)
      modifies this
      ensures name == newName && text == newText
    {
      name := newName;
      text := newText;
    }

    /**
     * Submit: hand over the new comment, if any, and clear the body field; a
     * rejected body is left in place. The name field is kept either way.
     */
    method Submit(id: string, date: string) returns (c: Option<Comment>)
      modifies this
      ensures c == NewComment(old(name), old(text), id, date)
      ensures name == old(name)
      ensures text == if c.Some? then "" else old(text)
    {
      c := NewComment(name, text, id, date);
      if c.Some? {
        text := "";
      }
    }
  }

  function OtherId(id: string): Comment -> bool
  {
    (c: Comment) => c.id != id
  }

  /** `prev.filter(c => c.id !== id)`: every comment with that id goes, the rest keep their order. */
  function RemoveId(cs: seq<Comment>, id: string): (r: seq<Comment>)
    ensures IsSubseq(r, cs) && |r| <= |cs|
    ensures forall c :: c in r <==> c in cs && c.id != id
    ensures forall c :: multiset(r)[c] == if c.id != id then multiset(cs)[c] else 0
  {
    FilterIsSubseq(cs, OtherId(id));
    FilterCounts(cs, OtherId(id));
    Filter(cs, OtherId(id))
  }

  /** No comment has this id. */
  predicate FreshId(cs: seq<Comment>, id: string)
  {
    forall c :: c in cs ==> c.id != id
  }

  /** Deleting an id no comment has leaves the list as it was. */
  lemma RemoveAbsentId(cs: seq<Comment>, id: string)
    requires FreshId(cs, id)
    ensures RemoveId(cs, id) == cs
  {
    FilterKeepsAll(cs, OtherId(id));
  }

  /** Deleting the same id twice is deleting it once. */
  lemma RemoveIdIdempotent(cs: seq<Comment>, id: string)
    ensures RemoveId(RemoveId(cs, id), id) == RemoveId(cs, id)
  {
    FilterIdempotent(cs, OtherId(id));
  }

  /** Posting a comment with a fresh id and then deleting it restores the list. */
  lemma PostThenDelete(c: Comment, cs: seq<Comment>)
    requires FreshId(cs, c.id)
    ensures RemoveId([c] + cs, c.id) == cs
  {
    FilterConcat([c], cs, OtherId(c.id));
    FilterKeepsAll(cs, OtherId(c.id));
  }

  /**
   * What the store holds under a key: the text `JSON.stringify` wrote for a
   * list, an empty string, or text that does not parse.
   */
  datatype Payload = Json(comments: seq<Comment>) | Blank | Unparsable

  /** The store is in sync with a list when it holds that list under the key. */
  predicate Synced(entries: map<string, Payload>, key: string, cs: seq<Comment>)
  {
    key in entries && entries[key] == Json(cs)
  }

  /**
   * The loading effect: a stored list replaces the list shown; a missing
   * entry, an empty one, one that does not parse or a read that throws
   * leaves the list as it was.
   */
  function Loaded(entries: map<string, Payload>, key: string, readOk: bool, current: seq<Comment>): (r: seq<Comment>)
    ensures Replaces(entries, key, readOk) ==> Synced(entries, key, r)
    ensures !Replaces(entries, key, readOk) ==> r == current
  {
    if Replaces(entries, key, readOk) then entries[key].comments else current
  }

  /** The load finds a list under the key and so replaces the state, which renders again. */
  predicate Replaces(entries: map<string, Payload>, key: string, readOk: bool)
  {
    readOk && key in entries && entries[key].Json?
  }

  /**
   * The saving effect: the list is written under the key; a write that
   * throws leaves the store as it was. No other key is touched.
   */
  function Saved(entries: map<string, Payload>, key: string, cs: seq<Comment>, writeOk: bool): (r: map<string, Payload>)
    ensures writeOk ==> Synced(r, key, cs)
    ensures !writeOk ==> r == entries
    ensures r.Keys == entries.Keys + (if writeOk then {key} else {})
    ensures forall k :: k in entries && k != key ==> r[k] == entries[k]
  {
    if writeOk then entries[key := Json(cs)] else entries
  }

  /**
   * The store once the effects for `key` have run, starting from the list
   * `shown`: the saving effect first writes `shown` under the key; when the
   * load replaced the list, the next render writes the loaded list as well.
   * Each write may throw, which leaves the store as it was.
   */
  function Settled(entries: map<string, Payload>, key: string, shown: seq<Comment>, readOk: bool,
                   firstWriteOk: bool, secondWriteOk: bool): (r: map<string, Payload>)
    ensures Replaces(entries, key, readOk) && secondWriteOk ==> r == entries
    ensures !Replaces(entries, key, readOk) && firstWriteOk ==> Synced(r, key, shown)
    ensures !firstWriteOk && !(Replaces(entries, key, readOk) && secondWriteOk) ==> r == entries
    ensures Replaces(entries, key, readOk) && firstWriteOk && !secondWriteOk ==> Synced(r, key, shown)
    ensures r.Keys == entries.Keys + (if firstWriteOk then {key} else {})
    ensures forall k :: k in entries && k != key ==> r[k] == entries[k]
  {
    var first := Saved(entries, key, shown, firstWriteOk);
    Saved(first, key, Loaded(entries, key, readOk, shown), Replaces(entries, key, readOk) && secondWriteOk)
  }

  /** What was saved under a key is what the next load of that key shows. */
  lemma SaveThenLoad(entries: map<string, Payload>, key: string, cs: seq<Comment>, shown: seq<Comment>)
    ensures Loaded(Saved(entries, key, cs, true), key, true, shown) == cs
  {
  }

  /** Saving under one key does not change what another key loads. */
  lemma SaveKeepsOtherKeys(entries: map<string, Payload>, key: string, other: string, cs: seq<Comment>,
                           writeOk: bool, readOk: bool, shown: seq<Comment>)
    requires other != key
    ensures Loaded(Saved(entries, key, cs, writeOk), other, readOk, shown) == Loaded(entries, other, readOk, shown)
  {
  }

  /** Loading what the store already holds in sync changes nothing. */
  lemma LoadSynced(entries: map<string, Payload>, key: string, cs: seq<Comment>, readOk: bool)
    requires Synced(entries, key, cs)
    ensures Loaded(entries, key, readOk, cs) == cs
  {
  }

  /** `comments:<id>` for an article, `comments:unknown` without one. */
  function StorageKey(article: Option<Content.Article>): string
  {
    if article.Some? then "comments:" + article.value.id else "comments:unknown"
  }

  /** Two articles share a storage key exactly when they share an id. */
  lemma StorageKeyInjective(a: Content.Article, b: Content.Article)
    ensures StorageKey(Some(a)) == StorageKey(Some(b)) <==> a.id == b.id
  {
    var p := "comments:";
    if StorageKey(Some(a)) == StorageKey(Some(b)) {
      assert a.id == (p + a.id)[|p|..] && b.id == (p + b.id)[|p|..];
    }
  }

  /** The article page: "Article not found", or the article with the key of its comments. */
  datatype View = NotFound | Shown(article: Content.Article, key: string)

  function Render(article: Option<Content.Article>): (v: View)
    ensures v.NotFound? <==> article.None?
    ensures v.Shown? ==> v.article == article.value && v.key == "comments:" + article.value.id
  {
    if article.None? then NotFound else Shown(article.value, StorageKey(article))
  }

  /**
   * The page an article route shows: not found exactly when no article has
   * the id; otherwise the first article with that id, whose comments live
   * under `comments:<id>`.
   */
  lemma ArticleRouteView(articles: seq<Content.Article>, id: string)
    ensures Render(App.FindArticle(articles, id)).NotFound? <==> forall a :: a in articles ==> a.id != id
    ensures Render(App.FindArticle(articles, id)).Shown? ==>
      Render(App.FindArticle(articles, id)).key == "comments:" + id
      && Render(App.FindArticle(articles, id)).article.id == id
      && exists k :: 0 <= k < |articles| && articles[k] == Render(App.FindArticle(articles, id)).article
                     && forall j :: 0 <= j < k ==> articles[j].id != id
  {
    var r := App.FindArticle(articles, id);
    if r.None? {
      forall a | a in articles
        ensures a.id != id
      {
        var k :| 0 <= k < |articles| && articles[k] == a;
      }
    }
  }

  /** The browser's key-value store. */
  class Storage {
    var entries: map<string, Payload>

    constructor (entries: map<string, Payload>)
      ensures this.entries == entries
    {
      this.entries := entries;
    }
  }

  /**
   * The comment list of an article page: the key it is stored under, the
   * comments shown, newest first, and the store it reads and writes.
   * `readOk` says whether the store's read succeeds, each `...WriteOk`
   * whether one write does; a failure is swallowed.
   */
  class CommentList {
    var key: string
    var comments: seq<Comment>
    const storage: Storage

    /**
     * Mounting: the list starts empty, the load replaces it with what is
     * stored under the key, and the effects write first the empty list and
     * then, if the load replaced it, the loaded one.
     */
    constructor Mount(storage: Storage, key: string, readOk: bool, firstWriteOk: bool, secondWriteOk: bool)
      modifies storage
      ensures this.storage == storage && this.key == key
      ensures comments == Loaded(old(storage.entries), key, readOk, [])
      ensures storage.entries == Settled(old(storage.entries), key, [], readOk, firstWriteOk, secondWriteOk)
    {
      this.storage := storage;
      this.key := key;
      comments := [];
      new;
      Effects(readOk, firstWriteOk, secondWriteOk);
    }

    /**
     * The loading and saving effects after a render with the current key:
     * the load reads the store, the save writes the list shown, and a list
     * the load found is shown and written in the next render.
     */
    method Effects(readOk: bool, firstWriteOk: bool, secondWriteOk: bool)
      modifies this, storage
      ensures key == old(key)
      ensures comments == Loaded(old(storage.entries), key, readOk, old(comments))
      ensures storage.entries == Settled(old(storage.entries), key, old(comments), readOk, firstWriteOk, secondWriteOk)
    {
      var replaced := Replaces(storage.entries, key, readOk);
      var loaded := Loaded(storage.entries, key, readOk, comments);
      storage.entries := Saved(storage.entries, key, comments, firstWriteOk);
      if replaced {
        comments := loaded;
        storage.entries := Saved(storage.entries, key, comments, secondWriteOk);
      }
    }

    /**
     * Posting through the form: a rejected body changes nothing; an accepted
     * comment goes to the front of the list, which is then saved. The id is
     * a fresh random UUID.
     */
    method Post(name: string, text: string, id: string, date: string, writeOk: bool)
      requires FreshId(comments, id)
      modifies this, storage
      ensures key == old(key)
      ensures NewComment(name, text, id, date).None? ==>
        comments == old(comments) && storage.entries == old(storage.entries)
      ensures NewComment(name, text, id, date).Some? ==>
        comments == [NewComment(name, text, id, date).value] + old(comments)
        && storage.entries == Saved(old(storage.entries), key, comments, writeOk)
    {
      var c := NewComment(name, text, id, date);
      if c.Some? {
        comments := [c.value] + comments;
        storage.entries := Saved(storage.entries, key, comments, writeOk);
      }
    }

    /** Deleting by id: the filtered list replaces the old one and is saved. */
    method Delete(id: string, writeOk: bool)
      modifies this, storage
      ensures key == old(key)
      ensures comments == RemoveId(old(comments), id)
      ensures storage.entries == Saved(old(storage.entries), key, comments, writeOk)
    {
      comments := RemoveId(comments, id);
      storage.entries := Saved(storage.entries, key, comments, writeOk);
    }

    /**
     * Moving to another article while the page stays mounted, as the site
     * does: the list still shown is kept, the effects load the new key into
     * it and save it under the new key.
     */
    method SwitchArticle(newKey: string, readOk: bool, firstWriteOk: bool, secondWriteOk: bool)
      modifies this, storage
      ensures key == newKey
      ensures comments == Loaded(old(storage.entries), newKey, readOk, old(comments))
      ensures storage.entries == Settled(old(storage.entries), newKey, old(comments), readOk, firstWriteOk, secondWriteOk)
    {
      key := newKey;
      Effects(readOk, firstWriteOk, secondWriteOk);
    }

    /**
     * Moving to another article with the list reset first: the page then
     * behaves exactly as if it had been mounted for the new key.
     */
    method SwitchArticleReset(newKey: string, readOk: bool, firstWriteOk: bool, secondWriteOk: bool)
      modifies this, storage
      ensures key == newKey
      ensures comments == Loaded(old(storage.entries), newKey, readOk, [])
      ensures storage.entries == Settled(old(storage.entries), newKey, [], readOk, firstWriteOk, secondWriteOk)
    {
      key := newKey;
      comments := [];
      Effects(readOk, firstWriteOk, secondWriteOk);
    }
  }

  /**
   * As written, the comments of the article left behind stay on screen when
   * the next article has nothing stored, and are then saved as that
   * article's comments, so even a fresh mount of it later shows them.
   */
  lemma SwitchCarriesComments(entries: map<string, Payload>, shown: seq<Comment>, newKey: string, secondWriteOk: bool)
    requires shown != [] && newKey !in entries
    ensures Loaded(entries, newKey, true, shown) == shown
    ensures Synced(Settled(entries, newKey, shown, true, true, secondWriteOk), newKey, shown)
    ensures Loaded(Settled(entries, newKey, shown, true, true, secondWriteOk), newKey, true, []) == shown
  {
  }

  /**
   * As written, even an article with comments of its own loses them to the
   * article left behind when the second write throws: its key is left
   * holding the previous article's list, while its own list is shown.
   */
  lemma SwitchOverwritesStoredComments(entries: map<string, Payload>, shown: seq<Comment>, newKey: string)
    requires Replaces(entries, newKey, true) && entries[newKey].comments != shown
    ensures Loaded(entries, newKey, true, shown) == entries[newKey].comments
    ensures Synced(Settled(entries, newKey, shown, true, true, false), newKey, shown)
    ensures !Synced(entries, newKey, shown)
  {
  }

  /**
   * With the reset, the new key ends up holding what it held before or the
   * empty list, never another article's comments.
   */
  lemma ResetStoresOnlyOwnComments(entries: map<string, Payload>, newKey: string, readOk: bool,
                                   firstWriteOk: bool, secondWriteOk: bool)
    ensures var r := Settled(entries, newKey, [], readOk, firstWriteOk, secondWriteOk);
      newKey in r ==> r[newKey] == Json([]) || (newKey in entries && r[newKey] == entries[newKey])
  {
  }

  /**
   * With the reset, the comments shown for an article are those stored under
   * its key, or none; they never depend on the article shown before.
   */
  lemma ResetShowsOnlyOwnComments(entries: map<string, Payload>, newKey: string, readOk: bool)
    ensures Loaded(entries, newKey, readOk, []) == [] || Synced(entries, newKey, Loaded(entries, newKey, readOk, []))
  {
  }
}
