/** internal/store/store.go: the article and enrichment rows, and each store method as one update of them. */
module Rows {
  import opened Model
  import opened Text
  import Enrich

  type ArticleId = string

  datatype Status =
    | Queued | Fetching | Fetched | Enriching | Enriched
    | FetchFailed | EnrichFailed | TopupQueued | Blocked

  datatype Row = Row(
    OriginalText: seq<Piece>,
    Tokens: seq<Token>,
    Status: Status,
    EnrichmentVersion: int,
    Coverage: real,
    LLMModel: string,
    Error: string)

  datatype Db = Db(articles: map<ArticleId, Row>, enrichments: map<ArticleId, Enrichment>)

  /** Statuses a worker picks up: in-flight ones too, so a crash is resumed. */
  predicate AwaitsWork(s: Status) {
    s in {Queued, Fetching, Fetched, Enriching, TopupQueued}
  }

  /** SQL TRIM leaves nothing: only U+0020 counts. */
  predicate SqlBlank(t: seq<Piece>) {
    forall p | p in t :: p == Rune(' ')
  }

  /** strings.TrimSpace leaves nothing: every Unicode space counts. */
  predicate GoBlank(u: Unicode, t: seq<Piece>) {
    forall p | p in t :: p.Rune? && u.space(p.c)
  }

  function Put(db: Db, id: ArticleId, row: Row): Db {
    db.(articles := db.articles[id := row])
  }

  function SetStatus(db: Db, id: ArticleId, status: Status, error: string): Db {
    if id in db.articles then Put(db, id, db.articles[id].(Status := status, Error := error)) else db
  }

  function SaveContent(db: Db, id: ArticleId, text: seq<Piece>, tokens: seq<Token>): Db {
    if id in db.articles then
      Put(db, id, db.articles[id].(OriginalText := text, Tokens := tokens, Status := Fetched, Error := ""))
    else db
  }

  function SaveEnrichmentProgress(db: Db, id: ArticleId, e: Enrichment): Db {
    if id in db.articles then
      var row := db.articles[id];
      Db(db.articles[id := row.(Coverage := Enrich.Coverage(e.Sentences, |row.Tokens|))], db.enrichments[id := e])
    else db
  }

  function SaveEnrichment(db: Db, id: ArticleId, e: Enrichment, llmModel: string): Db {
    if id in db.articles then
      var saved := SaveEnrichmentProgress(db, id, e);
      var row := saved.articles[id];
      Put(saved, id, row.(Status := Enriched, LLMModel := if llmModel != "" then llmModel else row.LLMModel))
    else db
  }

  function RetryArticle(db: Db, id: ArticleId): Db {
    if id in db.articles then
      var row := db.articles[id];
      Put(db, id, row.(Status := if SqlBlank(row.OriginalText) then Queued else Fetched, Error := ""))
    else db
  }

  /** Drops the stored enrichment together with its coverage. */
  function Forget(db: Db, id: ArticleId, status: Status, version: int): Db
    requires id in db.articles
  {
    Db(db.articles[id := db.articles[id].(
         Status := status, EnrichmentVersion := version, Coverage := 0.0, Error := "")],
       db.enrichments - {id})
  }

  function RequeueForVersion(u: Unicode, db: Db, id: ArticleId, version: int): Db {
    if id in db.articles then
      Forget(db, id, if GoBlank(u, db.articles[id].OriginalText) then Queued else Fetched, version)
    else db
  }

  function ReEnrich(db: Db, id: ArticleId, topup: bool): Db {
    if id !in db.articles then db
    else if topup then SetStatus(db, id, TopupQueued, "")
    else Forget(db, id, Fetched, db.articles[id].EnrichmentVersion)
  }

  function DeleteArticle(db: Db, id: ArticleId): Db {
    Db(db.articles - {id}, db.enrichments - {id})
  }

  function SaveTokenLemmas(db: Db, id: ArticleId, tokens: seq<Token>): Db {
    if id in db.articles then Put(db, id, db.articles[id].(Tokens := tokens)) else db
  }

  function StoredEnrichment(db: Db, id: ArticleId): Enrichment {
    if id in db.enrichments then db.enrichments[id] else EMPTY_ENRICHMENT
  }
}

/** The database handle of internal/store/store.go. */
module Store {
  import opened Model
  import opened Text
  import opened Rows
  import Enrich

  /** The database handle; every method runs under the single write lock. */
  class SQLite {
    var articles: map<ArticleId, Row>
    var enrichments: map<ArticleId, Enrichment>

    function Value(): Db
      reads this
    {
      Db(articles, enrichments)
    }

    constructor ()
      ensures Value() == Db(map[], map[])
    {
      articles, enrichments := map[], map[];
    }

    method SetStatus(id: ArticleId, status: Status, error: string) returns (found: bool)
      modifies this
      ensures found == (id in old(articles)) && Value() == Rows.SetStatus(old(Value()), id, status, error)
    {
      found := id in articles;
      if found {
        articles := articles[id := articles[id].(Status := status, Error := error)];
      }
    }

    method SaveContent(id: ArticleId, text: seq<Piece>, tokens: seq<Token>) returns (found: bool)
      modifies this
      ensures found == (id in old(articles)) && Value() == Rows.SaveContent(old(Value()), id, text, tokens)
    {
      found := id in articles;
      if found {
        articles := articles[id :=
          articles[id].(OriginalText := text, Tokens := tokens, Status := Fetched, Error := "")];
      }
    }

    method SaveEnrichmentProgress(id: ArticleId, e: Enrichment) returns (found: bool)
      modifies this
      ensures found == (id in old(articles)) && Value() == Rows.SaveEnrichmentProgress(old(Value()), id, e)
    {
      if id !in articles {
        return false;
      }
      var tokenCount := |articles[id].Tokens|;
      var coverage := Enrich.SentenceCoverage(e.Sentences, tokenCount);
      enrichments := enrichments[id := e];
      articles := articles[id := articles[id].(Coverage := coverage)];
      found := true;
    }

    method SaveEnrichment(id: ArticleId, e: Enrichment, llmModel: string) returns (found: bool)
      modifies this
      ensures found == (id in old(articles)) && Value() == Rows.SaveEnrichment(old(Value()), id, e, llmModel)
    {
      if id !in articles {
        return false;
      }
      var tokenCount := |articles[id].Tokens|;
      var coverage := Enrich.SentenceCoverage(e.Sentences, tokenCount);
      enrichments := enrichments[id := e];
      var row := articles[id];
      articles := articles[id := row.(Status := Enriched, Coverage := coverage,
                                      LLMModel := if llmModel != "" then llmModel else row.LLMModel)];
      found := true;
    }

    method RetryArticle(id: ArticleId) returns (found: bool)
      modifies this
      ensures found == (id in old(articles)) && Value() == Rows.RetryArticle(old(Value()), id)
    {
      found := id in articles;
      if found {
        var row := articles[id];
        var status := if SqlBlank(row.OriginalText) then Queued else Fetched;
        articles := articles[id := row.(Status := status, Error := "")];
      }
    }

    method RequeueForVersion(u: Unicode, id: ArticleId, version: int) returns (found: bool)
      modifies this
      ensures found == (id in old(articles)) && Value() == Rows.RequeueForVersion(u, old(Value()), id, version)
    {
      if id !in articles {
        return false;
      }
      var row := articles[id];
      var status := if GoBlank(u, row.OriginalText) then Queued else Fetched;
      articles := articles[id := row.(Status := status, EnrichmentVersion := version, Coverage := 0.0, Error := "")];
      enrichments := enrichments - {id};
      found := true;
    }

    method ReEnrich(id: ArticleId, topup: bool) returns (found: bool)
      modifies this
      ensures found == (id in old(articles)) && Value() == Rows.ReEnrich(old(Value()), id, topup)
    {
      if id !in articles {
        return false;
      }
      var row := articles[id];
      if topup {
        articles := articles[id := row.(Status := TopupQueued, Error := "")];
      } else {
        articles := articles[id := row.(Status := Fetched, Coverage := 0.0, Error := "")];
        enrichments := enrichments - {id};
      }
      found := true;
    }

    method DeleteArticle(id: ArticleId) returns (found: bool)
      modifies this
      ensures found == (id in old(articles)) && Value() == Rows.DeleteArticle(old(Value()), id)
    {
      found := id in articles;
      articles, enrichments := articles - {id}, enrichments - {id};
    }

    method SaveTokenLemmas(id: ArticleId, tokens: seq<Token>) returns (found: bool)
      modifies this
      ensures found == (id in old(articles)) && Value() == Rows.SaveTokenLemmas(old(Value()), id, tokens)
    {
      found := id in articles;
      if found {
        articles := articles[id := articles[id].(Tokens := tokens)];
      }
    }
  }
}
