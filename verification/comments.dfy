/** Article comments kept in the browser's local storage (`useComments`),
    one JSON list per article under "ithome_comments_v1:<article id>". Every
    save tells the article's subscribers twice: once through the `Map` of
    callback sets, and once more through the window `storage` listener each
    `subscribe` registered, since `saveComments` dispatches its `storage`
    event on this same window. */
module Comments {
  import opened Wrappers
  import opened Text
  import Seqs

  /** `createdAt` is `Date.now()` in milliseconds. */
  datatype CommentRecord = CommentRecord(
    id: string, author: Option<string>, email: Option<string>, message: string, createdAt: int)

  /** What `addComment` receives. */
  datatype CommentPayload = CommentPayload(author: Option<string>, email: Option<string>, message: string)

  /** What reading a storage entry gives: an array of comments, the empty
      string, or anything `loadComments` cannot parse and sort. */
  datatype Stored = CommentList(comments: seq<CommentRecord>) | EmptyText | Malformed

  /** A listener callback, known by its identity. */
  type Callback = nat

  const Prefix := "ithome_comments_v1:"

  function KeyForArticle(articleId: string): (k: string)
    ensures StartsWith(k, Prefix) && k[|Prefix|..] == articleId
  {
    Prefix + articleId
  }

  /** The storage key names its article. */
  lemma KeyDeterminesArticle(a: string, b: string)
    requires KeyForArticle(a) == KeyForArticle(b)
    ensures a == b
  {
    assert a == KeyForArticle(a)[|Prefix|..];
  }

  /** Different articles never share a storage entry. */
  lemma KeysAreDistinct(a: string, b: string)
    requires a != b
    ensures KeyForArticle(a) != KeyForArticle(b)
  {
    assert KeyForArticle(a)[|Prefix|..] == a;
    assert KeyForArticle(b)[|Prefix|..] == b;
  }

  function CreatedAt(c: CommentRecord): int
  {
    c.createdAt
  }

  /** `loadComments(articleId)` on `storage`: nothing for a missing, empty
      or malformed entry; otherwise the stored comments newest first, those
      of one millisecond in their stored order. */
  function Listing(storage: map<string, Stored>, articleId: string): (r: seq<CommentRecord>)
    ensures var key := KeyForArticle(articleId);
      if key in storage && storage[key].CommentList? then
        var stored := storage[key].comments;
        multiset(r) == multiset(stored) && Seqs.SortedByKeyDesc(r, CreatedAt)
        && forall t :: Seqs.Filter(r, Seqs.KeyIs(CreatedAt, t)) == Seqs.Filter(stored, Seqs.KeyIs(CreatedAt, t))
      else r == []
  {
    var key := KeyForArticle(articleId);
    if key in storage && storage[key].CommentList? then
      var stored := storage[key].comments;
      Seqs.SortIsPermutation(stored, CreatedAt);
      Seqs.SortIsSorted(stored, CreatedAt);
      forall t ensures Seqs.Filter(Seqs.SortByKeyDesc(stored, CreatedAt), Seqs.KeyIs(CreatedAt, t))
                    == Seqs.Filter(stored, Seqs.KeyIs(CreatedAt, t)) {
        Seqs.SortIsStable(stored, CreatedAt, t);
      }
      Seqs.SortByKeyDesc(stored, CreatedAt)
    else []
  }

  /** A comment whose time is not older than any listed one goes to the top
      of the listing once it is put in front of it. */
  lemma {:induction false} NewestListedFirst(item: CommentRecord, list: seq<CommentRecord>)
    requires forall i :: 0 <= i < |list| ==> list[i].createdAt <= item.createdAt
    ensures Seqs.SortByKeyDesc([item] + list, CreatedAt) == [item] + Seqs.SortByKeyDesc(list, CreatedAt)
  {
    var s := [item] + list;
    assert s[0] == item && s[1..] == list;
    var sorted := Seqs.SortByKeyDesc(list, CreatedAt);
    if sorted != [] {
      Seqs.SortIsPermutation(list, CreatedAt);
      assert sorted[0] in multiset(list);
      assert sorted[0] in list;
    }
  }

  /** A listing sorted newest first is its own listing. */
  lemma {:induction false} SortedListIsKept(s: seq<CommentRecord>)
    requires Seqs.SortedByKeyDesc(s, CreatedAt)
    ensures Seqs.SortByKeyDesc(s, CreatedAt) == s
  {
    if s != [] {
      assert Seqs.SortedByKeyDesc(s[1..], CreatedAt) by {
        forall i, j | 0 <= i < j < |s[1..]| ensures s[1..][i].createdAt >= s[1..][j].createdAt {
          assert s[1..][i] == s[i + 1] && s[1..][j] == s[j + 1];
        }
      }
      SortedListIsKept(s[1..]);
      assert s == [s[0]] + s[1..];
      NewestListedFirst(s[0], s[1..]);
    }
  }

  predicate NoDuplicates(s: seq<Callback>)
  {
    forall i, j :: 0 <= i < j < |s| ==> s[i] != s[j]
  }

  /** `set.add(cb)`: a callback already there keeps its place. */
  function Added(s: seq<Callback>, cb: Callback): (r: seq<Callback>)
    ensures cb in r && forall x :: x in r <==> x == cb || x in s
    ensures NoDuplicates(s) ==> NoDuplicates(r)
  {
    if cb in s then s else s + [cb]
  }

  /** `set.delete(cb)`. */
  function Removed(s: seq<Callback>, cb: Callback): (r: seq<Callback>)
    ensures cb !in r && forall x :: x in r <==> x != cb && x in s
    ensures NoDuplicates(s) ==> NoDuplicates(r)
  {
    if s == [] then []
    else
      assert NoDuplicates(s) ==> NoDuplicates(s[1..]) && s[0] !in s[1..] by {
        if NoDuplicates(s) {
          forall i, j | 0 <= i < j < |s[1..]| ensures s[1..][i] != s[1..][j] {
            assert s[1..][i] == s[i + 1] && s[1..][j] == s[j + 1];
          }
        }
      }
      if s[0] == cb then Removed(s[1..], cb)
      else [s[0]] + Removed(s[1..], cb)
  }

  /** The callbacks of an article, in the order they were added. */
  function ListenersOf(listeners: map<string, seq<Callback>>, articleId: string): seq<Callback>
  {
    if articleId in listeners then listeners[articleId] else []
  }

  /** The window `storage` listener one `subscribe` call registers: it
      calls `cb` when the event's key is the key of `articleId`. `token`
      tells listeners apart (each call makes a new closure); the value also
      stands for the unsubscribe function that call returns. */
  datatype Handler = Handler(token: nat, articleId: string, cb: Callback)

  /** The callbacks the window listeners run, in registration order, for a
      `storage` event with key `key`. */
  function HandlerCalls(handlers: seq<Handler>, key: string): (r: seq<Callback>)
    ensures |r| <= |handlers|
    ensures forall i :: 0 <= i < |handlers| && KeyForArticle(handlers[i].articleId) == key ==> handlers[i].cb in r
    ensures forall cb :: cb in r ==>
      exists i :: 0 <= i < |handlers| && KeyForArticle(handlers[i].articleId) == key && handlers[i].cb == cb
  {
    if handlers == [] then []
    else
      var rest := HandlerCalls(handlers[1..], key);
      assert forall i :: 1 <= i < |handlers| ==> handlers[i] == handlers[1..][i - 1];
      (if KeyForArticle(handlers[0].articleId) == key then [handlers[0].cb] else []) + rest
  }

  class CommentStore {
    /** The browser's local storage. */
    var storage: map<string, Stored>
    /** The `Map` from article id to its `Set` of callbacks. */
    var listeners: map<string, seq<Callback>>
    /** The window's `storage` listeners, in registration order. */
    var handlers: seq<Handler>
    /** The token the next `subscribe` gives its listener. */
    var nextToken: nat

    /** Every article's callbacks are a set, and every listener has its own
        token. */
    ghost predicate Valid()
      reads this
    {
      (forall a :: a in listeners ==> NoDuplicates(listeners[a]))
      && (forall i :: 0 <= i < |handlers| ==> handlers[i].token < nextToken)
    }

    constructor (storage: map<string, Stored>)
      ensures this.storage == storage && listeners == map[] && handlers == [] && Valid()
    {
      this.storage := storage;
      listeners := map[];
      handlers := [];
      nextToken := 0;
    }

    method LoadComments(articleId: string) returns (r: seq<CommentRecord>)
      ensures r == Listing(storage, articleId)
    {
      r := Listing(storage, articleId);
    }

    /** `saveComments`: when the write (`writable`) succeeds, the entry of
        this article alone changes, its callbacks are called in order, and
        then the dispatched `storage` event runs the window listeners that
        watch its key; a failed write changes nothing and calls nobody. */
    method SaveComments(articleId: string, comments: seq<CommentRecord>, writable: bool) returns (called: seq<Callback>)
      modifies this
      ensures listeners == old(listeners) && handlers == old(handlers) && nextToken == old(nextToken)
      ensures writable ==> storage == old(storage)[KeyForArticle(articleId) := CommentList(comments)]
                           && called == ListenersOf(listeners, articleId) + HandlerCalls(handlers, KeyForArticle(articleId))
      ensures !writable ==> storage == old(storage) && called == []
    {
      if writable {
        storage := storage[KeyForArticle(articleId) := CommentList(comments)];
        called := ListenersOf(listeners, articleId);
        called := called + HandlerCalls(handlers, KeyForArticle(articleId));
      } else {
        called := [];
      }
    }

    /** `addComment`: the new comment is put in front of the current
        listing; `id` and `now` stand for the generated id and `Date.now()`. */
    method AddComment(articleId: string, payload: CommentPayload, id: string, now: int, writable: bool)
      returns (item: CommentRecord, called: seq<Callback>)
      modifies this
      ensures item == CommentRecord(id, payload.author, payload.email, payload.message, now)
      ensures listeners == old(listeners) && handlers == old(handlers) && nextToken == old(nextToken)
      ensures writable ==>
        storage == old(storage)[KeyForArticle(articleId) := CommentList([item] + Listing(old(storage), articleId))]
        && called == ListenersOf(listeners, articleId) + HandlerCalls(handlers, KeyForArticle(articleId))
      ensures !writable ==> storage == old(storage) && called == []
    {
      var list := LoadComments(articleId);
      item := CommentRecord(id, payload.author, payload.email, payload.message, now);
      called := SaveComments(articleId, [item] + list, writable);
    }

    /** `removeComment`: the listing without the comments that have this id. */
    method RemoveComment(articleId: string, id: string, writable: bool) returns (called: seq<Callback>)
      modifies this
      ensures listeners == old(listeners) && handlers == old(handlers) && nextToken == old(nextToken)
      ensures writable ==>
        storage == old(storage)[KeyForArticle(articleId) :=
          CommentList(Seqs.Filter(Listing(old(storage), articleId), (c: CommentRecord) => c.id != id))]
        && called == ListenersOf(listeners, articleId) + HandlerCalls(handlers, KeyForArticle(articleId))
      ensures !writable ==> storage == old(storage) && called == []
    {
      var list := LoadComments(articleId);
      called := SaveComments(articleId, Seqs.Filter(list, (c: CommentRecord) => c.id != id), writable);
    }

    /** `subscribe`: adds the callback to the article's set and registers a
        new window listener for the article's key; the listener returned
        stands for the unsubscribe function. */
    method Subscribe(articleId: string, cb: Callback) returns (sub: Handler)
      requires Valid()
      modifies this
      ensures Valid() && storage == old(storage)
      ensures listeners == old(listeners)[articleId := Added(ListenersOf(old(listeners), articleId), cb)]
      ensures sub == Handler(old(nextToken), articleId, cb) && handlers == old(handlers) + [sub]
      ensures forall i :: 0 <= i < |old(handlers)| ==> old(handlers)[i].token != sub.token
    {
      listeners := listeners[articleId := Added(ListenersOf(listeners, articleId), cb)];
      sub := Handler(nextToken, articleId, cb);
      handlers := handlers + [sub];
      nextToken := nextToken + 1;
    }

    /** The function `subscribe` returns: deletes the callback from the
        article's set and removes that call's window listener. */
    method Unsubscribe(sub: Handler)
      requires Valid()
      modifies this
      ensures Valid() && storage == old(storage) && nextToken == old(nextToken)
      ensures sub.articleId in old(listeners) ==>
        listeners == old(listeners)[sub.articleId := Removed(old(listeners)[sub.articleId], sub.cb)]
      ensures sub.articleId !in old(listeners) ==> listeners == old(listeners)
      ensures handlers == Seqs.Filter(old(handlers), (h: Handler) => h.token != sub.token)
    {
      if sub.articleId in listeners {
        listeners := listeners[sub.articleId := Removed(listeners[sub.articleId], sub.cb)];
      }
      handlers := Seqs.Filter(handlers, (h: Handler) => h.token != sub.token);
    }
  }

  /** A callback subscribed to an article runs at least twice on a save of
      that article: from the article's set and from its window listener. */
  lemma SubscribedCallbackRunsTwice(listeners: map<string, seq<Callback>>, handlers: seq<Handler>, articleId: string, i: nat)
    requires i < |handlers| && handlers[i].articleId == articleId
    requires handlers[i].cb in ListenersOf(listeners, articleId)
    ensures multiset(ListenersOf(listeners, articleId) + HandlerCalls(handlers, KeyForArticle(articleId)))[handlers[i].cb] >= 2
  {
    var cb := handlers[i].cb;
    var fromSet, fromWindow := ListenersOf(listeners, articleId), HandlerCalls(handlers, KeyForArticle(articleId));
    assert cb in fromWindow;
    assert multiset(fromSet + fromWindow) == multiset(fromSet) + multiset(fromWindow);
    assert cb in multiset(fromSet) && cb in multiset(fromWindow);
  }

  /** A window listener answers the events of its own article only. */
  lemma HandlersWatchTheirArticle(handlers: seq<Handler>, articleId: string, cb: Callback)
    requires cb in HandlerCalls(handlers, KeyForArticle(articleId))
    ensures exists i :: 0 <= i < |handlers| && handlers[i].articleId == articleId && handlers[i].cb == cb
  {
    var i :| 0 <= i < |handlers| && KeyForArticle(handlers[i].articleId) == KeyForArticle(articleId) && handlers[i].cb == cb;
    KeyDeterminesArticle(handlers[i].articleId, articleId);
  }

  /** Adding a comment at a time not older than every stored one, and
      loading again, shows that comment first and the earlier listing after
      it. */
  lemma AddedCommentComesFirst(storage: map<string, Stored>, articleId: string, item: CommentRecord)
    requires forall c :: c in Listing(storage, articleId) ==> c.createdAt <= item.createdAt
    ensures Listing(storage[KeyForArticle(articleId) := CommentList([item] + Listing(storage, articleId))], articleId)
         == [item] + Listing(storage, articleId)
  {
    var before := Listing(storage, articleId);
    if KeyForArticle(articleId) in storage && storage[KeyForArticle(articleId)].CommentList? {
      SortedListIsKept(before);
    }
    NewestListedFirst(item, before);
  }

  /** After a removal, the listing holds no comment with that id and every
      other comment it held before. */
  lemma RemovedCommentIsGone(storage: map<string, Stored>, articleId: string, id: string)
    ensures var after := Listing(storage[KeyForArticle(articleId) :=
        CommentList(Seqs.Filter(Listing(storage, articleId), (c: CommentRecord) => c.id != id))], articleId);
      (forall c :: c in after ==> c.id != id)
      && (forall c :: c in Listing(storage, articleId) && c.id != id ==> c in after)
  {
    var kept := Seqs.Filter(Listing(storage, articleId), (c: CommentRecord) => c.id != id);
    var after := Listing(storage[KeyForArticle(articleId) := CommentList(kept)], articleId);
    assert multiset(after) == multiset(kept);
    forall c | c in after ensures c.id != id {
      assert c in multiset(kept);
    }
    forall c | c in Listing(storage, articleId) && c.id != id ensures c in after {
      assert c in kept;
      assert c in multiset(after);
    }
  }
}
