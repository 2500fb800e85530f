/** The in-memory log of AI-assist prompts and responses. Listings are
    newest first; `Array.prototype.sort` is stable, so entries made in the
    same millisecond keep the order in which they were saved. */
module PromptLogStore {
  import opened Wrappers
  import Seqs

  /** `createdAt` is the creation time in milliseconds (`getTime()`). */
  datatype PromptLog = PromptLog(id: string, articleId: Option<string>, prompt: string, response: string, createdAt: int)

  /** What `save` receives: a log without id and creation time. */
  datatype LogEntry = LogEntry(articleId: Option<string>, prompt: string, response: string)

  function CreatedAt(l: PromptLog): int
  {
    l.createdAt
  }

  function ForArticle(articleId: string): PromptLog -> bool
  {
    (l: PromptLog) => l.articleId == Some(articleId)
  }

  /** `listAll()` on `logs`: all of them, newest first, ties in saving order. */
  function Listing(logs: seq<PromptLog>): (r: seq<PromptLog>)
    ensures multiset(r) == multiset(logs)
    ensures Seqs.SortedByKeyDesc(r, CreatedAt)
    ensures forall t :: Seqs.Filter(r, Seqs.KeyIs(CreatedAt, t)) == Seqs.Filter(logs, Seqs.KeyIs(CreatedAt, t))
  {
    Seqs.SortIsPermutation(logs, CreatedAt);
    Seqs.SortIsSorted(logs, CreatedAt);
    forall t ensures Seqs.Filter(Seqs.SortByKeyDesc(logs, CreatedAt), Seqs.KeyIs(CreatedAt, t))
                  == Seqs.Filter(logs, Seqs.KeyIs(CreatedAt, t)) {
      Seqs.SortIsStable(logs, CreatedAt, t);
    }
    Seqs.SortByKeyDesc(logs, CreatedAt)
  }

  /** `listByArticle(articleId)` on `logs`: exactly the logs of that article,
      newest first. */
  function ListingByArticle(logs: seq<PromptLog>, articleId: string): (r: seq<PromptLog>)
    ensures multiset(r) == multiset(Seqs.Filter(logs, ForArticle(articleId)))
    ensures forall i :: 0 <= i < |r| ==> r[i].articleId == Some(articleId)
    ensures forall i :: 0 <= i < |logs| && logs[i].articleId == Some(articleId) ==> logs[i] in r
    ensures Seqs.SortedByKeyDesc(r, CreatedAt)
    ensures forall t :: Seqs.Filter(r, Seqs.KeyIs(CreatedAt, t))
                     == Seqs.Filter(Seqs.Filter(logs, ForArticle(articleId)), Seqs.KeyIs(CreatedAt, t))
  {
    var mine := Seqs.Filter(logs, ForArticle(articleId));
    var r := Listing(mine);
    assert multiset(r) == multiset(mine);
    forall i | 0 <= i < |logs| && logs[i].articleId == Some(articleId) ensures logs[i] in r {
      assert ForArticle(articleId)(logs[i]);
      assert logs[i] in multiset(mine);
      assert logs[i] in multiset(r);
    }
    forall i | 0 <= i < |r| ensures r[i].articleId == Some(articleId) {
      assert r[i] in multiset(r);
      assert r[i] in multiset(mine);
      var j :| 0 <= j < |mine| && mine[j] == r[i];
      assert ForArticle(articleId)(mine[j]);
    }
    r
  }

  class InMemoryPromptLogRepository {
    /** The logs in the order they were saved. */
    var logs: seq<PromptLog>

    constructor ()
      ensures logs == []
    {
      logs := [];
    }

    /** `save`: `id` is `crypto.randomUUID()` and `now` the current time. */
    method Save(entry: LogEntry, id: string, now: int) returns (record: PromptLog)
      modifies this
      ensures record == PromptLog(id, entry.articleId, entry.prompt, entry.response, now)
      ensures logs == old(logs) + [record]
    {
      record := PromptLog(id, entry.articleId, entry.prompt, entry.response, now);
      logs := logs + [record];
    }

    method ListByArticle(articleId: string) returns (r: seq<PromptLog>)
      ensures r == ListingByArticle(logs, articleId)
    {
      r := ListingByArticle(logs, articleId);
    }

    method ListAll() returns (r: seq<PromptLog>)
      ensures r == Listing(logs)
    {
      r := Listing(logs);
    }
  }
}
