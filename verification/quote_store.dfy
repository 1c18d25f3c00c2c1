/** The quote store of `src/database.py`, as the four tables `insert_quote` writes:
    authors, quotes, tags and the `quote_tags` junction. Row ids are handed out by
    `AUTOINCREMENT` and nothing is deleted, so the row at position `i` of a table has
    id `i + 1`; the junction table is a set of (quote id, tag id) pairs because its
    primary key is the pair. */
module QuoteStore {
  import opened Common
  import Web

  datatype QuoteRow = QuoteRow(text: string, authorId: nat, source: Option<string>)

  datatype Store = Store(
    authors: seq<string>,
    quotes: seq<QuoteRow>,
    tags: seq<string>,
    links: set<(nat, nat)>)

  const Empty := Store([], [], [], {})

  /** No name occurs twice: the `UNIQUE` constraint of a name column. */
  predicate Unique(names: seq<string>) {
    forall i, j :: 0 <= i < j < |names| ==> names[i] != names[j]
  }

  /** The texts of the stored quotes. */
  function Texts(s: Store): set<string> {
    set i | 0 <= i < |s.quotes| :: s.quotes[i].text
  }

  lemma TextsSnoc(s: Store, row: QuoteRow)
    ensures Texts(s.(quotes := s.quotes + [row])) == Texts(s) + {row.text}
  {
    var s1 := s.(quotes := s.quotes + [row]);
    forall t | t in Texts(s)
      ensures t in Texts(s1)
    {
      var i :| 0 <= i < |s.quotes| && s.quotes[i].text == t;
      assert s1.quotes[i] == s.quotes[i];
    }
    assert s1.quotes[|s.quotes|] == row;
  }

  /** The schema's constraints: unique author names, quote texts and tag names, every
      quote's author present, and every junction row naming a stored quote and tag. */
  predicate Valid(s: Store) {
    && Unique(s.authors)
    && Unique(s.tags)
    && (forall i, j :: 0 <= i < j < |s.quotes| ==> s.quotes[i].text != s.quotes[j].text)
    && (forall i :: 0 <= i < |s.quotes| ==> 1 <= s.quotes[i].authorId <= |s.authors|)
    && (forall l :: l in s.links ==> 1 <= l.0 <= |s.quotes| && 1 <= l.1 <= |s.tags|)
  }

  lemma EmptyValid()
    ensures Valid(Empty) && Texts(Empty) == {}
  {
  }

  /** The position of `x` in `names`, the first one when there are several. */
  function Find(names: seq<string>, x: string): (i: nat)
    requires x in names
    ensures i < |names| && names[i] == x
    ensures forall j :: 0 <= j < i ==> names[j] != x
    decreases |names|
  {
    if names[0] == x then 0 else 1 + Find(names[1..], x)
  }

  /** `SELECT id ... WHERE name = ?` and, when nothing is found, `INSERT` and
      `lastrowid`: the id of the row holding `x`, and the table afterwards. */
  function GetOrCreate(names: seq<string>, x: string): (r: (nat, seq<string>))
    ensures r.1 == if x in names then names else names + [x]
    ensures 1 <= r.0 <= |r.1| && r.1[r.0 - 1] == x
    ensures Unique(names) ==> Unique(r.1)
    ensures x !in names ==> r.0 == |names| + 1
  {
    if x in names then (Find(names, x) + 1, names) else (|names| + 1, names + [x])
  }

  /** In a table of unique names the row holding a name is the only one. */
  lemma UniqueId(names: seq<string>, i: nat, j: nat)
    requires Unique(names) && i < |names| && j < |names| && names[i] == names[j]
    ensures i == j
  {
  }

  /** The tag names linked to quote `q`. */
  function TagsOf(s: Store, q: nat): (names: set<string>)
    ensures forall l :: l in s.links && l.0 == q && 1 <= l.1 <= |s.tags| ==> s.tags[l.1 - 1] in names
  {
    set l | l in s.links && l.0 == q && 1 <= l.1 <= |s.tags| :: s.tags[l.1 - 1]
  }

  /** The tag loop of `insert_quote`: get or create each tag in turn and link it to
      quote `q` with `INSERT OR IGNORE`. */
  function AddTags(s: Store, q: nat, tags: seq<string>): (r: Store)
    ensures r.authors == s.authors && r.quotes == s.quotes
    ensures |s.tags| <= |r.tags| && r.tags[..|s.tags|] == s.tags
    ensures forall t :: t in tags ==> t in r.tags
    ensures forall t :: t in r.tags ==> t in s.tags || t in tags
    ensures Unique(s.tags) ==> Unique(r.tags)
    ensures s.links <= r.links
    ensures forall l :: l in r.links && l !in s.links ==> l.0 == q && 1 <= l.1 <= |r.tags| && r.tags[l.1 - 1] in tags
    decreases |tags|
  {
    if |tags| == 0 then s
    else
      var (id, names) := GetOrCreate(s.tags, tags[0]);
      AddTags(s.(tags := names, links := s.links + {(q, id)}), q, tags[1..])
  }

  /** A tag already linked to `q` stays linked under the id it has, whatever the tag
      loop goes on to do. */
  lemma KeptLink(s: Store, q: nat, tags: seq<string>, id: nat)
    requires Unique(s.tags) && 1 <= id <= |s.tags| && (q, id) in s.links
    ensures var r := AddTags(s, q, tags);
            forall i :: 0 <= i < |r.tags| && r.tags[i] == s.tags[id - 1] ==> (q, i + 1) in r.links
  {
    var r := AddTags(s, q, tags);
    forall i | 0 <= i < |r.tags| && r.tags[i] == s.tags[id - 1]
      ensures (q, i + 1) in r.links
    {
      assert r.tags[id - 1] == s.tags[id - 1];
      UniqueId(r.tags, id - 1, i);
    }
  }

  /** Every listed tag ends up linked to quote `q`. */
  lemma {:induction false} AddTagsLinksEach(s: Store, q: nat, tags: seq<string>)
    requires Unique(s.tags)
    ensures var r := AddTags(s, q, tags);
            forall i: nat :: i < |r.tags| && r.tags[i] in tags ==> (q, i + 1) in r.links
    decreases |tags|
  {
    if |tags| > 0 {
      var (id, names) := GetOrCreate(s.tags, tags[0]);
      var s1 := s.(tags := names, links := s.links + {(q, id)});
      var r := AddTags(s1, q, tags[1..]);
      assert r == AddTags(s, q, tags);
      AddTagsLinksEach(s1, q, tags[1..]);
      KeptLink(s1, q, tags[1..], id);
      forall i: nat | i < |r.tags| && r.tags[i] in tags
        ensures (q, i + 1) in r.links
      {
        if r.tags[i] in tags[1..] {
          assert (q, i + 1) in AddTags(s1, q, tags[1..]).links;
        } else {
          assert r.tags[i] == tags[0] == s1.tags[id - 1];
        }
      }
    }
  }

  /** `insert_quote(text, author, tags, source_url)`: the id of the new quote, or `None`
      with nothing written when a quote with the same text is stored. */
  function InsertQuote(s: Store, text: string, author: string, tags: seq<string>, source: Option<string>)
    : (r: (Option<nat>, Store))
    ensures text in Texts(s) <==> r.0.None?
    ensures r.0.None? ==> r.1 == s
    ensures r.0.Some? ==> r.0.value == |s.quotes| + 1
    ensures r.0.Some? ==> |r.1.quotes| == |s.quotes| + 1 && r.1.quotes[..|s.quotes|] == s.quotes
    ensures r.0.Some? ==> r.1.quotes[|s.quotes|].text == text && r.1.quotes[|s.quotes|].source == source
    ensures r.0.Some? ==> r.1.authors == (if author in s.authors then s.authors else s.authors + [author])
    ensures r.0.Some? ==> 1 <= r.1.quotes[|s.quotes|].authorId <= |r.1.authors|
    ensures r.0.Some? ==> r.1.authors[r.1.quotes[|s.quotes|].authorId - 1] == author
    ensures Texts(r.1) == Texts(s) + {text}
  {
    if text in Texts(s) then (None, s)
    else
      var (authorId, authors) := GetOrCreate(s.authors, author);
      var q := |s.quotes| + 1;
      var s1 := s.(authors := authors, quotes := s.quotes + [QuoteRow(text, authorId, source)]);
      var r := AddTags(s1, q, tags);
      assert r.quotes == s1.quotes;
      TextsSnoc(s, QuoteRow(text, authorId, source));
      (Some(q), r)
  }

  /** Inserting keeps the schema's constraints. */
  lemma InsertKeepsValid(s: Store, text: string, author: string, tags: seq<string>, source: Option<string>)
    ensures Valid(s) ==> Valid(InsertQuote(s, text, author, tags, source).1)
  {
    var r := InsertQuote(s, text, author, tags, source);
    if Valid(s) && text !in Texts(s) {
      var n := |s.quotes|;
      assert r.1.quotes[..n] == s.quotes;
      forall i, j | 0 <= i < j < |r.1.quotes|
        ensures r.1.quotes[i].text != r.1.quotes[j].text
      {
        if j == n {
          assert r.1.quotes[i] == s.quotes[i];
        } else {
          assert r.1.quotes[i] == s.quotes[i] && r.1.quotes[j] == s.quotes[j];
        }
      }
      forall i | 0 <= i < |r.1.quotes|
        ensures 1 <= r.1.quotes[i].authorId <= |r.1.authors|
      {
        if i < n {
          assert r.1.quotes[i] == s.quotes[i];
        }
      }
    }
  }

  /** A quote with no links beforehand ends the tag loop linked to exactly the listed
      names. */
  lemma AddTagsExactly(s: Store, q: nat, tags: seq<string>)
    requires Unique(s.tags) && forall l :: l in s.links ==> l.0 != q
    ensures TagsOf(AddTags(s, q, tags), q) == set t | t in tags
  {
    var r := AddTags(s, q, tags);
    forall t | t in TagsOf(r, q)
      ensures t in tags
    {
      var l :| l in r.links && l.0 == q && 1 <= l.1 <= |r.tags| && r.tags[l.1 - 1] == t;
      assert l !in s.links;
    }
    forall t | t in tags
      ensures t in TagsOf(r, q)
    {
      var i: nat := Find(r.tags, t);
      AddTagsLinksEach(s, q, tags);
      assert r.tags[i] in tags;
      assert (q, i + 1) in AddTags(s, q, tags).links;
    }
  }

  /** The new quote is linked to exactly the listed tag names, each once: a repeated
      name in the list adds neither a tag row nor a second link. */
  lemma InsertLinksExactlyTags(s: Store, text: string, author: string, tags: seq<string>, source: Option<string>)
    requires Valid(s) && text !in Texts(s)
    ensures var r := InsertQuote(s, text, author, tags, source).1;
            TagsOf(r, |s.quotes| + 1) == set t | t in tags
  {
    var (authorId, authors) := GetOrCreate(s.authors, author);
    var s1 := s.(authors := authors, quotes := s.quotes + [QuoteRow(text, authorId, source)]);
    AddTagsExactly(s1, |s.quotes| + 1, tags);
  }

  /** The texts of a batch of records. */
  function BatchTexts(quotes: seq<Web.Quote>): (ts: set<string>)
    ensures forall t :: t in ts <==> exists i :: 0 <= i < |quotes| && quotes[i].text == t
    decreases |quotes|
  {
    if |quotes| == 0 then {}
    else
      var init := quotes[..|quotes| - 1];
      assert forall i :: 0 <= i < |init| ==> init[i] == quotes[i];
      BatchTexts(init) + {quotes[|quotes| - 1].text}
  }

  lemma BatchTextsAppend(a: seq<Web.Quote>, b: seq<Web.Quote>)
    ensures BatchTexts(a + b) == BatchTexts(a) + BatchTexts(b)
  {
    forall t | t in BatchTexts(a + b)
      ensures t in BatchTexts(a) + BatchTexts(b)
    {
      var i :| 0 <= i < |a + b| && (a + b)[i].text == t;
      if i >= |a| {
        assert b[i - |a|].text == t;
      }
    }
    forall t | t in BatchTexts(b)
      ensures t in BatchTexts(a + b)
    {
      var i :| 0 <= i < |b| && b[i].text == t;
      assert (a + b)[|a| + i].text == t;
    }
    forall t | t in BatchTexts(a)
      ensures t in BatchTexts(a + b)
    {
      var i :| 0 <= i < |a| && a[i].text == t;
      assert (a + b)[i].text == t;
    }
  }

  /** What `insert_quotes_batch` returns, and the store afterwards. */
  datatype Batch = Batch(added: nat, skipped: nat, store: Store)

  /** `insert_quotes_batch(quotes, source_url)`: one `insert_quote` per record, in order,
      counting new quotes as added and duplicates as skipped. */
  function InsertBatch(s: Store, quotes: seq<Web.Quote>, source: Option<string>): (b: Batch)
    ensures b.added + b.skipped == |quotes|
    ensures |b.store.quotes| == |s.quotes| + b.added
    ensures Texts(b.store) == Texts(s) + BatchTexts(quotes)
    ensures Valid(s) ==> Valid(b.store)
    decreases |quotes|
  {
    if |quotes| == 0 then Batch(0, 0, s)
    else
      var prev := InsertBatch(s, quotes[..|quotes| - 1], source);
      var last := quotes[|quotes| - 1];
      var (id, store) := InsertQuote(prev.store, last.text, last.author, last.tags, source);
      InsertKeepsValid(prev.store, last.text, last.author, last.tags, source);
      if id.Some? then Batch(prev.added + 1, prev.skipped, store)
      else Batch(prev.added, prev.skipped + 1, store)
  }

  /** A record whose text appeared earlier in the same batch is skipped. */
  lemma RepeatInBatchSkipped(s: Store, quotes: seq<Web.Quote>, source: Option<string>, i: nat, j: nat)
    requires i < j < |quotes| && quotes[i].text == quotes[j].text
    ensures var prev := InsertBatch(s, quotes[..j], source).store;
            InsertQuote(prev, quotes[j].text, quotes[j].author, quotes[j].tags, source).0.None?
  {
    assert quotes[..j][i].text == quotes[j].text;
  }

  /** A batch of texts none of which is stored, and no two of which are equal, is added
      in full. */
  lemma {:induction false} FreshBatchAllAdded(s: Store, quotes: seq<Web.Quote>, source: Option<string>)
    requires forall i :: 0 <= i < |quotes| ==> quotes[i].text !in Texts(s)
    requires forall i, j :: 0 <= i < j < |quotes| ==> quotes[i].text != quotes[j].text
    ensures InsertBatch(s, quotes, source).added == |quotes|
    decreases |quotes|
  {
    if |quotes| > 0 {
      var init := quotes[..|quotes| - 1];
      FreshBatchAllAdded(s, init, source);
      var prev := InsertBatch(s, init, source);
      var last := quotes[|quotes| - 1];
      assert last.text !in BatchTexts(init) by {
        forall i | 0 <= i < |init|
          ensures init[i].text != last.text
        {
          assert init[i] == quotes[i];
        }
      }
      assert last.text !in Texts(prev.store);
      assert InsertQuote(prev.store, last.text, last.author, last.tags, source).0.Some?;
    }
  }

  /** Inserting the same batch twice adds nothing the second time. */
  lemma {:induction false} BatchTwiceSkipsAll(s: Store, quotes: seq<Web.Quote>, source: Option<string>)
    ensures var again := InsertBatch(InsertBatch(s, quotes, source).store, quotes, source);
            again.added == 0 && again.skipped == |quotes|
  {
    var first := InsertBatch(s, quotes, source).store;
    AllStoredSkipped(first, quotes, source);
  }

  lemma {:induction false} AllStoredSkipped(s: Store, quotes: seq<Web.Quote>, source: Option<string>)
    requires forall i :: 0 <= i < |quotes| ==> quotes[i].text in Texts(s)
    ensures InsertBatch(s, quotes, source).added == 0
    decreases |quotes|
  {
    if |quotes| > 0 {
      var init := quotes[..|quotes| - 1];
      AllStoredSkipped(s, init, source);
    }
  }
}
