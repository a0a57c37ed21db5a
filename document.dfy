/** document.go: the readable article behind a document, the slug and title
    made from it, and what DocumentToEPUB hands to the converter. sanitize.Name
    and sanitize.HTML are the oracles `name` and `html`; creating the metadata
    file, writing it and running pandoc are oracles too. */
module Document {
  import opened Wrappers
  import opened GoLib
  import Json

  /** The part of readability.Article the document reads. */
  datatype Article = Article(title: string, siteName: string, content: string)

  /** The text a title or slug is made from: the article's title, else its
      site name, else `fallback` (the chooser that htmlDocument.Slug and Title,
      and url-to-epub's makeTitle and makeSlug, each spell out). */
  function TitleSource(a: Article, fallback: string): (source: string)
    ensures source == FirstNonEmpty([a.title, a.siteName, fallback])
  {
    FirstNonEmptyOfThree(a.title, a.siteName, fallback);
    var source := if |a.title| <= 0 then a.siteName else a.title;
    if |source| <= 0 then fallback else source
  }

  /** htmlDocument.Slug: the title, else the site name, else "Untitled", through sanitize.Name. */
  function Slug(a: Article, name: string -> string): (slug: string)
    ensures slug == name(FirstNonEmpty([a.title, a.siteName, "Untitled"]))
  {
    name(TitleSource(a, "Untitled"))
  }

  /** htmlDocument.Title: the same choice of text, through sanitize.HTML. */
  function Title(a: Article, html: string -> string): (title: string)
    ensures title == html(FirstNonEmpty([a.title, a.siteName, "Untitled"]))
  {
    html(TitleSource(a, "Untitled"))
  }


  /** htmlDocument.Format. */
  const Format: string := "html"

  /** The metadata file's content: an object whose only member is the title. */
  function Metadata(a: Article, html: string -> string): (meta: Json.Json)
    ensures meta.Object? && meta.fields.Keys == {"title"}
    ensures Json.DecodeString(Json.Member(meta, "title")) == Success(Title(a, html))
  {
    Json.Object(map["title" := Json.Str(Title(a, html))])
  }

  /** The converter's arguments: write `filename`, read `Format`, take the
      metadata from `metafile`. */
  function PandocArgs(filename: string, metafile: string): (args: seq<string>)
    ensures |args| == 6
    ensures args[0] == "-o" && args[1] == filename
    ensures args[2] == "-f" && args[3] == Format
    ensures args[4] == "--metadata-file" && args[5] == metafile
  {
    ["-o", filename, "-f", Format, "--metadata-file", metafile]
  }

  /** The one command DocumentToEPUB runs: the program, its arguments and its standard input. */
  datatype Command = Command(exe: string, args: seq<string>, stdin: string)

  /** What DocumentToEPUB does, given the outcome of creating the temporary
      metadata file (its name or an error) and the oracles that write the
      metadata file and run a command (each gives an error or none). */
  datatype Conversion = Conversion(ran: Option<Command>, err: Option<string>)

  function DocumentToEpub(a: Article, filename: string, html: string -> string,
                          tempFile: Result<string, string>,
                          write: (string, Json.Json) -> Option<string>,
                          run: Command -> Option<string>): (c: Conversion)
    ensures c.ran.Some? <==> tempFile.Success? && write(tempFile.value, Metadata(a, html)).None?
    ensures c.ran.Some? ==>
              && c.ran.value == Command("pandoc", PandocArgs(filename, tempFile.value), a.content)
              && c.err == run(c.ran.value)
    ensures tempFile.Failure? ==>
              c.err == Some("cannot create epub metadata temporary file: " + tempFile.error)
    ensures tempFile.Success? && write(tempFile.value, Metadata(a, html)).Some? ==>
              c.err == Some("cannot write epub metadata temporary file: "
                            + write(tempFile.value, Metadata(a, html)).value)
    ensures c.ran.None? ==> c.err.Some?
  {
    match tempFile
    case Failure(e) => Conversion(None, Some("cannot create epub metadata temporary file: " + e))
    case Success(metafile) =>
      match write(metafile, Metadata(a, html))
      case Some(e) => Conversion(None, Some("cannot write epub metadata temporary file: " + e))
      case None =>
        var cmd := Command("pandoc", PandocArgs(filename, metafile), a.content);
        Conversion(Some(cmd), run(cmd))
  }
}
