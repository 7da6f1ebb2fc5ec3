/**
 * The customer list page (`catalogos.py`): every `.json` file of the
 * `clientes/` directory is read in directory order; a readable one yields a
 * summary row, an unreadable one an error line, and each row links to the
 * customer page through the customer's slug.
 */
module CatalogueListing {
  import opened Wrappers
  import opened Records
  import opened Slugs

  /** What reading one catalogue file produced; `Unreadable` is any exception while opening or parsing it. */
  datatype FileContent = Unreadable | Parsed(doc: Catalogue)

  /** One entry of the `clientes/` directory listing. */
  datatype DirEntry = DirEntry(name: string, content: FileContent)

  /** A row of the overview table. */
  datatype Summary = Summary(cliente: string, vendedor: string, qtdPecas: nat)

  /** The outcome of the page: "Nenhum cliente cadastrado ainda.", or the rows and the files that failed. */
  datatype Listing = NoCustomers | Listed(rows: seq<Summary>, failed: seq<string>)

  /** `f.endswith(".json")`. */
  predicate IsJsonName(name: string)
  {
    |name| >= 5 && name[|name| - 5..] == ".json"
  }

  /** The directory entries the page considers, in directory order (line 14). */
  function JsonFiles(entries: seq<DirEntry>): (r: seq<DirEntry>)
    ensures forall e :: e in r <==> e in entries && IsJsonName(e.name)
    ensures |r| <= |entries|
    decreases |entries|
  {
    if entries == [] then []
    else
      var init := entries[..|entries| - 1];
      var last := entries[|entries| - 1];
      assert entries == init + [last];
      JsonFiles(init) + (if IsJsonName(last.name) then [last] else [])
  }

  /** The summary of one parsed catalogue, with the page's defaults for missing keys (lines 30-39). */
  function Summarise(c: Catalogue): (s: Summary)
    ensures s.cliente == (if c.cliente.Some? then c.cliente.value else "Sem nome")
    ensures s.vendedor == (if c.vendedor.Some? then c.vendedor.value else "\U{2014}")
    ensures s.qtdPecas == (if c.pecas.Some? then |c.pecas.value| else 0)
  {
    Summary(c.cliente.GetOr("Sem nome"), c.vendedor.GetOr("\U{2014}"), if c.pecas.Some? then |c.pecas.value| else 0)
  }

  /** The rows of the readable files, in file order. */
  function Summaries(files: seq<DirEntry>): (r: seq<Summary>)
    ensures |r| <= |files|
    decreases |files|
  {
    if files == [] then []
    else
      var last := files[|files| - 1];
      Summaries(files[..|files| - 1]) + (if last.content.Parsed? then [Summarise(last.content.doc)] else [])
  }

  /** The names of the unreadable files, in file order. */
  function Failures(files: seq<DirEntry>): (r: seq<string>)
    ensures |r| <= |files|
    decreases |files|
  {
    if files == [] then []
    else
      var last := files[|files| - 1];
      Failures(files[..|files| - 1]) + (if last.content.Unreadable? then [last.name] else [])
  }

  /** How many of the files could be read. */
  function ParsedCount(files: seq<DirEntry>): nat
  {
    |set i | 0 <= i < |files| && files[i].content.Parsed?|
  }

  /** Every file is either summarised or reported, never both. */
  lemma {:induction false} EveryFileAccountedFor(files: seq<DirEntry>)
    ensures |Summaries(files)| + |Failures(files)| == |files|
    decreases |files|
  {
    if files != [] {
      EveryFileAccountedFor(files[..|files| - 1]);
    }
  }

  /** There are as many rows as readable files. */
  lemma {:induction false} RowPerParsedFile(files: seq<DirEntry>)
    ensures |Summaries(files)| == ParsedCount(files)
    decreases |files|
  {
    if files != [] {
      var n := |files| - 1;
      var init := files[..n];
      RowPerParsedFile(init);
      var before := set i | 0 <= i < |init| && init[i].content.Parsed?;
      var now := set i | 0 <= i < |files| && files[i].content.Parsed?;
      forall i | 0 <= i < n ensures files[i] == init[i] {
      }
      if files[n].content.Parsed? {
        assert now == before + {n};
        assert n !in before;
      } else {
        assert now == before;
      }
    }
  }

  /** Rows keep the order of the file list: the rows of two stretches of files are concatenated. */
  lemma {:induction false} SummariesAppend(a: seq<DirEntry>, b: seq<DirEntry>)
    ensures Summaries(a + b) == Summaries(a) + Summaries(b)
    decreases |b|
  {
    if b == [] {
      assert a + b == a;
    } else {
      var n := |b| - 1;
      assert (a + b)[..|a + b| - 1] == a + b[..n];
      assert (a + b)[|a + b| - 1] == b[n];
      SummariesAppend(a, b[..n]);
    }
  }

  /** A name is reported as an error exactly when it is the name of an unreadable file of the list. */
  lemma {:induction false} FailuresAreUnreadableNames(files: seq<DirEntry>, name: string)
    ensures name in Failures(files) <==>
              exists i :: 0 <= i < |files| && files[i].content.Unreadable? && files[i].name == name
    decreases |files|
  {
    if files != [] {
      var n := |files| - 1;
      FailuresAreUnreadableNames(files[..n], name);
      if name in Failures(files) {
        if name in Failures(files[..n]) {
          var j :| 0 <= j < n && files[..n][j].content.Unreadable? && files[..n][j].name == name;
          assert files[j] == files[..n][j];
        } else {
          assert files[n].content.Unreadable? && files[n].name == name;
        }
      } else {
        forall i | 0 <= i < |files| && files[i].content.Unreadable?
          ensures files[i].name != name
        {
          if i < n {
            assert files[..n][i] == files[i];
          }
        }
      }
    }
  }

  /** Every row is the summary of a readable file of the list. */
  lemma {:induction false} RowsComeFromFiles(files: seq<DirEntry>)
    ensures forall s :: s in Summaries(files) ==>
              exists i :: 0 <= i < |files| && files[i].content.Parsed? && s == Summarise(files[i].content.doc)
    decreases |files|
  {
    if files != [] {
      var n := |files| - 1;
      RowsComeFromFiles(files[..n]);
      forall s | s in Summaries(files)
        ensures exists i :: 0 <= i < |files| && files[i].content.Parsed? && s == Summarise(files[i].content.doc)
      {
        if s in Summaries(files[..n]) {
          var i :| 0 <= i < n && files[..n][i].content.Parsed? && s == Summarise(files[..n][i].content.doc);
          assert files[i] == files[..n][i];
        } else {
          assert files[n].content.Parsed? && s == Summarise(files[n].content.doc);
        }
      }
    }
  }

  /** The page's reading loop (lines 14-42): files that fail are reported and the loop goes on. */
  method ListCatalogues(entries: seq<DirEntry>) returns (r: Listing)
    ensures JsonFiles(entries) == [] <==> r == NoCustomers
    ensures r.Listed? ==> r.rows == Summaries(JsonFiles(entries)) && r.failed == Failures(JsonFiles(entries))
  {
    var arquivos := JsonFiles(entries);
    if arquivos == [] {
      return NoCustomers;
    }
    var rows: seq<Summary> := [];
    var failed: seq<string> := [];
    var k := 0;
    while k < |arquivos|
      invariant 0 <= k <= |arquivos|
      invariant rows == Summaries(arquivos[..k]) && failed == Failures(arquivos[..k])
    {
      assert arquivos[..k + 1][..k] == arquivos[..k];
      match arquivos[k].content {
        case Unreadable =>
          failed := failed + [arquivos[k].name];
        case Parsed(doc) =>
          rows := rows + [Summarise(doc)];
      }
      k := k + 1;
    }
    assert arquivos[..k] == arquivos;
    r := Listed(rows, failed);
  }

  /** The query string of a customer link, before percent-encoding (lines 52 and 71). */
  function LinkTarget(cliente: string): (r: string)
    ensures |r| == 10 + |cliente| && r[..10] == "/?cliente=" && r[10..] == Slug(cliente)
    ensures ' ' !in r
  {
    "/?cliente=" + Slug(cliente)
  }

  /**
   * A row of the linked table: the customer cell becomes a Markdown link to
   * the customer page; the target keeps the backslash the page writes before
   * its leading slash, which Markdown drops.
   */
  datatype LinkRow = LinkRow(link: string, vendedor: string, qtdPecas: nat)

  /** `clientes_com_link` (lines 50-58): one linked row per summary, in order. */
  method LinkRows(rows: seq<Summary>) returns (linked: seq<LinkRow>)
    ensures |linked| == |rows|
    ensures forall i :: 0 <= i < |rows| ==>
              linked[i] == LinkRow("[" + rows[i].cliente + "](\\" + LinkTarget(rows[i].cliente) + ")",
                                   rows[i].vendedor, rows[i].qtdPecas)
  {
    linked := [];
    for k := 0 to |rows|
      invariant |linked| == k
      invariant forall i :: 0 <= i < k ==>
                  linked[i] == LinkRow("[" + rows[i].cliente + "](\\" + LinkTarget(rows[i].cliente) + ")",
                                       rows[i].vendedor, rows[i].qtdPecas)
    {
      var c := rows[k];
      linked := linked + [LinkRow("[" + c.cliente + "](\\" + LinkTarget(c.cliente) + ")", c.vendedor, c.qtdPecas)];
    }
  }
}
