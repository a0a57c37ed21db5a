/** cmd/url-to-epub/main.go: the title and slug of a fetched article, the
    path of the EPUB file written for an item, the converter's arguments, and
    what item2epub returns. Fetching the article (readability) and running the
    converter are oracles; sanitize.Name and sanitize.HTML are `name` and `html`. */
module UrlToEpub {
  import opened Wrappers
  import opened GoLib
  import Document

  /** An item read from standard input: its id and its URL. */
  datatype Item = Item(id: int, url: string)

  /** makeTitle: the title, else the site name, else "No Title", through sanitize.HTML. */
  function MakeTitle(a: Document.Article, html: string -> string): (title: string)
    ensures title == html(FirstNonEmpty([a.title, a.siteName, "No Title"]))
  {
    html(Document.TitleSource(a, "No Title"))
  }

  /** makeSlug: the same choice of text, through sanitize.Name. */
  function MakeSlug(a: Document.Article, name: string -> string): (slug: string)
    ensures slug == name(FirstNonEmpty([a.title, a.siteName, "No Title"]))
  {
    name(Document.TitleSource(a, "No Title"))
  }

  /** The file name "<id>-<slug>.epub". */
  function Basename(id: int, slug: string): string
  {
    FormatInt(id) + "-" + slug + ".epub"
  }

  /** The output path: the file name joined to the output directory. */
  function OutPath(dirname: string, id: int, slug: string): string
  {
    JoinPath(dirname, Basename(id, slug))
  }

  /** The number of leading decimal digits of s. */
  function DigitRun(s: string): (n: nat)
    ensures n <= |s| && AllDigits(s[..n])
  {
    if s != [] && IsDigit(s[0]) then 1 + DigitRun(s[1..]) else 0
  }

  /** The id a file name starts with: an optional '-' and the digits after it. */
  function IdOf(basename: string): (id: Option<int>)
  {
    var sign := if basename != [] && basename[0] == '-' then 1 else 0;
    var n := DigitRun(basename[sign..]);
    if n == 0 then None else ParseDecimal(basename[..sign + n])
  }

  lemma {:induction false} DigitRunAppend(d: string, s: string)
    requires AllDigits(d)
    requires s != [] && !IsDigit(s[0])
    ensures DigitRun(d + s) == |d|
    decreases |d|
  {
    if d != [] {
      assert (d + s)[1..] == d[1..] + s;
      DigitRunAppend(d[1..], s);
    }
  }

  /** A file name starts with the id of its item. */
  lemma BasenameStartsWithId(id: int, slug: string)
    ensures IdOf(Basename(id, slug)) == Some(id)
  {
    var b := Basename(id, slug);
    var f := FormatInt(id);
    var rest := "-" + slug + ".epub";
    assert b == f + rest;
    var sign := if id < 0 then 1 else 0;
    var digits := NatToDecimal(if id < 0 then -id else id);
    assert f == f[..sign] + digits;
    assert b[sign..] == digits + rest;
    DigitRunAppend(digits, rest);
    assert b[..sign + |digits|] == f;
    FormatThenParse(id);
  }

  /** The output file lies directly in the (cleaned) output directory. */
  lemma OutPathInDirectory(dirname: string, id: int, slug: string)
    requires '/' !in slug
    ensures Segments(OutPath(dirname, id, slug))
            == CleanNames(IsRooted(dirname), Segments(dirname)) + [Basename(id, slug)]
  {
    var b := Basename(id, slug);
    assert |b| >= |".epub"| > |".."|;
    assert '/' !in b by {
      var f := FormatInt(id);
      assert b == f + "-" + slug + ".epub";
      assert '/' !in f by {
        if id < 0 {
          assert f == "-" + NatToDecimal(-id);
        }
      }
    }
    JoinPathSegments(dirname, b);
  }

  /** Items with different ids never share an output path. */
  lemma OutPathsDistinct(dirname: string, id1: int, slug1: string, id2: int, slug2: string)
    requires '/' !in slug1 && '/' !in slug2
    requires id1 != id2
    ensures OutPath(dirname, id1, slug1) != OutPath(dirname, id2, slug2)
  {
    OutPathInDirectory(dirname, id1, slug1);
    OutPathInDirectory(dirname, id2, slug2);
    BasenameStartsWithId(id1, slug1);
    BasenameStartsWithId(id2, slug2);
    var segs1, segs2 := Segments(OutPath(dirname, id1, slug1)), Segments(OutPath(dirname, id2, slug2));
    assert segs1[|segs1| - 1] == Basename(id1, slug1);
    assert segs2[|segs2| - 1] == Basename(id2, slug2);
  }

  /** The converter's arguments: write `outPath` from HTML, with the title as metadata. */
  function ConverterArgs(outPath: string, title: string): (args: seq<string>)
    ensures |args| == 6 && args[1] == outPath && args[5] == "title=" + title
    ensures args[0] == "-o" && args[2] == "-f" && args[3] == "html" && args[4] == "--metadata"
  {
    ["-o", outPath, "-f", "html", "--metadata", "title=" + title]
  }

  /** item2epub, given the article fetched from the item's URL (or the fetch
      error) and the converter's outcome for an argument list and standard
      input (an error or none): the output path and no error, or "" and the
      error. */
  function Item2Epub(item: Item, dirname: string, fetched: Result<Document.Article, string>,
                     name: string -> string, html: string -> string,
                     convert: (seq<string>, string) -> Option<string>): (r: (string, Option<string>))
    ensures r.1.None? <==>
              && fetched.Success?
              && convert(ConverterArgs(OutPath(dirname, item.id, MakeSlug(fetched.value, name)),
                                       MakeTitle(fetched.value, html)),
                         fetched.value.content).None?
    ensures r.1.Some? ==> r.0 == ""
    ensures r.1.None? ==> r.0 == OutPath(dirname, item.id, MakeSlug(fetched.value, name))
    ensures fetched.Failure? ==> r == ("", Some(fetched.error))
    ensures fetched.Success? ==>
              r.1 == convert(ConverterArgs(OutPath(dirname, item.id, MakeSlug(fetched.value, name)),
                                           MakeTitle(fetched.value, html)),
                             fetched.value.content)
  {
    match fetched
    case Failure(e) => ("", Some(e))
    case Success(article) =>
      var title := MakeTitle(article, html);
      var basename := Basename(item.id, MakeSlug(article, name));
      var outPath := JoinPath(dirname, basename);
      match convert(ConverterArgs(outPath, title), article.content)
      case Some(e) => ("", Some(e))
      case None => (outPath, None)
  }
}
