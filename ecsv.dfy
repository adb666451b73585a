/** `parseECSV`: the Enhanced CSV reader (Astropy APE 6) for the per-night focal-plane
    summary. The YAML loader and the delimited-table parser are library code, so
    they are parameters here; what is modelled is how the text is partitioned into
    header comments and body lines, the header checks, and how the result is put
    together. */
module Ecsv {

  import opened Results
  import opened Js
  import opened Text

  const MissingHeader: string := "Missing %ECSV header"
  const MissingDatatype: string := "Header is missing required datatype"

  /** `line.startsWith("# ")`: a header comment line. */
  predicate IsCommentLine(line: string) {
    StartsWith(line, "# ")
  }

  /** `line[0] != "#"`: a body line (an empty line is one, since `""[0]` is undefined). */
  predicate IsBodyLine(line: string) {
    line == [] || line[0] != '#'
  }

  /** A line that is neither: it begins with '#' but not with "# ". */
  predicate IsDroppedLine(line: string) {
    line != [] && line[0] == '#' && !IsCommentLine(line)
  }

  /** `lines.filter(l => l.startsWith("# ")).map(l => l.slice(2))`. */
  function CommentLines(lines: seq<string>): (cs: seq<string>)
    ensures |cs| <= |lines|
  {
    if lines == [] then []
    else
      var rest := CommentLines(lines[1..]);
      if IsCommentLine(lines[0]) then [lines[0][2..]] + rest else rest
  }

  /** `lines.filter(l => l[0] != "#")`. */
  function BodyLines(lines: seq<string>): (bs: seq<string>)
    ensures |bs| <= |lines|
    ensures forall i :: 0 <= i < |bs| ==> IsBodyLine(bs[i])
  {
    if lines == [] then []
    else
      var rest := BodyLines(lines[1..]);
      if IsBodyLine(lines[0]) then [lines[0]] + rest else rest
  }

  /** The lines that reach neither the header nor the body. */
  function DroppedLines(lines: seq<string>): (ds: seq<string>)
    ensures forall i :: 0 <= i < |ds| ==> IsDroppedLine(ds[i])
  {
    if lines == [] then []
    else
      var rest := DroppedLines(lines[1..]);
      if IsDroppedLine(lines[0]) then [lines[0]] + rest else rest
  }

  /** What the YAML loader makes of the header comments: it throws, produces
      something that is not a mapping (null, a scalar, a list), or a mapping. */
  datatype YamlOutcome =
    | YamlThrows(error: JsError)
    | YamlNotMapping
    | YamlMapping(fields: map<string, JsValue>)

  /** A field of the object `parseECSV` resolves to: the computed `version` (the
      text handed to `Number`), the computed `data` table, or a header field. */
  datatype DocField<T> =
    | VersionField(text: string)
    | DataField(table: T)
    | HeaderField(value: JsValue)

  /** `header?.delimiter ?? " "`. */
  function Delimiter(header: map<string, JsValue>): (d: JsValue)
    ensures !Nullish(d)
    ensures "delimiter" in header && !Nullish(header["delimiter"]) ==> d == header["delimiter"]
    ensures "delimiter" !in header || Nullish(header["delimiter"]) ==> d == JsStr(" ")
  {
    if "delimiter" in header && !Nullish(header["delimiter"]) then header["delimiter"] else JsStr(" ")
  }

  /** The body text handed to the table parser. */
  function EcsvBody(txt: string): string {
    Join(BodyLines(Split(txt, '\n')), "\n")
  }

  /** `Object.assign({version, data}, header)`: header fields win over the two
      computed ones. */
  function Assemble<T>(version: string, data: T, header: map<string, JsValue>): (doc: map<string, DocField<T>>)
    ensures doc.Keys == header.Keys + {"version", "data"}
    ensures forall k :: k in header ==> doc[k] == HeaderField(header[k])
    ensures "version" !in header ==> doc["version"] == VersionField(version)
    ensures "data" !in header ==> doc["data"] == DataField(data)
  {
    map["version" := VersionField(version), "data" := DataField(data)]
      + map k | k in header :: HeaderField(header[k])
  }

  /** Everything after the `%ECSV` line was found: version text, YAML header,
      datatype check, delimiter, table parse and assembly. */
  function ParseFromHeaderLine<T>(
    first: string, rest: seq<string>, body: string,
    yamlLoad: string -> YamlOutcome, parse: (JsValue, string) -> Result<T, JsError>)
    : (r: Result<map<string, DocField<T>>, JsError>)
    ensures r.Success? ==> "version" in r.value && "data" in r.value
    ensures !StartsWith(Trim(first), "%ECSV") ==> r == Failure(Error(MissingHeader))
  {
    if !StartsWith(Trim(first), "%ECSV") then Failure(Error(MissingHeader))
    else
      var version := Slice(Trim(first), 6);
      match yamlLoad(Join(rest, "\n"))
      case YamlThrows(e) => Failure(e)
      case YamlNotMapping => Failure(Error(MissingDatatype))
      case YamlMapping(header) =>
        if !("datatype" in header && Truthy(header["datatype"])) then Failure(Error(MissingDatatype))
        else
          match parse(Delimiter(header), body)
          case Failure(e) => Failure(e)
          case Success(data) => Success(Assemble(version, data, header))
  }

  /** `parseECSV(source)` on the source's text, as written: with no "# " line at all,
      `comments[0].trim()` throws a TypeError. */
  function ParseEcsv<T>(txt: string, yamlLoad: string -> YamlOutcome, parse: (JsValue, string) -> Result<T, JsError>)
    : Result<map<string, DocField<T>>, JsError>
  {
    var comments := CommentLines(Split(txt, '\n'));
    if comments == [] then Failure(PropertyOfNullish(JsUndefined, "trim"))
    else ParseFromHeaderLine(comments[0], comments[1..], EcsvBody(txt), yamlLoad, parse)
  }

  /** The reader as evidently intended: text with no "# " line is rejected for its
      missing `%ECSV` header like any other text without one. */
  function ParseEcsvChecked<T>(txt: string, yamlLoad: string -> YamlOutcome, parse: (JsValue, string) -> Result<T, JsError>)
    : Result<map<string, DocField<T>>, JsError>
  {
    var comments := CommentLines(Split(txt, '\n'));
    if comments == [] then Failure(Error(MissingHeader))
    else ParseFromHeaderLine(comments[0], comments[1..], EcsvBody(txt), yamlLoad, parse)
  }

  /** The body lines are exactly the input lines whose first character is not '#'. */
  lemma {:induction false} BodyLinesExact(lines: seq<string>)
    ensures forall l :: l in BodyLines(lines) <==> l in lines && IsBodyLine(l)
  {
    if lines != [] {
      BodyLinesExact(lines[1..]);
      assert lines == [lines[0]] + lines[1..];
    }
  }

  /** The filters keep the lines' order: filtering a concatenation is concatenating
      the filtered parts. */
  lemma {:induction false} FiltersDistribute(a: seq<string>, b: seq<string>)
    ensures CommentLines(a + b) == CommentLines(a) + CommentLines(b)
    ensures BodyLines(a + b) == BodyLines(a) + BodyLines(b)
    ensures DroppedLines(a + b) == DroppedLines(a) + DroppedLines(b)
  {
    if a == [] {
      assert a + b == b;
    } else {
      assert (a + b)[1..] == a[1..] + b;
      FiltersDistribute(a[1..], b);
    }
  }

  /** Every line goes to exactly one of header, body or nowhere, so the three
      filters together account for every line once. */
  lemma {:induction false} LinesPartitioned(lines: seq<string>)
    ensures |CommentLines(lines)| + |BodyLines(lines)| + |DroppedLines(lines)| == |lines|
  {
    if lines != [] {
      LinesPartitioned(lines[1..]);
      var l := lines[0];
      assert IsCommentLine(l) ==> !IsBodyLine(l) && !IsDroppedLine(l);
      assert !IsCommentLine(l) ==> (IsBodyLine(l) <==> !IsDroppedLine(l));
    }
  }

  /** A single line goes exactly where its first two characters say. */
  lemma OneLine(l: string)
    ensures CommentLines([l]) == (if IsCommentLine(l) then [l[2..]] else [])
    ensures BodyLines([l]) == (if IsBodyLine(l) then [l] else [])
  {
    assert [l][1..] == [];
  }

  /** Splitting the body text at newlines gives back exactly the body lines, in
      their original order; with no body line the body text is empty. */
  lemma EcsvBodyLines(txt: string)
    ensures BodyLines(Split(txt, '\n')) != [] ==> Split(EcsvBody(txt), '\n') == BodyLines(Split(txt, '\n'))
    ensures BodyLines(Split(txt, '\n')) == [] ==> EcsvBody(txt) == ""
  {
    var lines := Split(txt, '\n');
    var body := BodyLines(lines);
    if body != [] {
      BodyLinesFrom(lines, '\n');
      SplitJoin(body, '\n');
    }
  }

  /** Body lines are lines of the input, so they hold no newline. */
  lemma {:induction false} BodyLinesFrom(lines: seq<string>, sep: char)
    requires forall i :: 0 <= i < |lines| ==> sep !in lines[i]
    ensures forall i :: 0 <= i < |BodyLines(lines)| ==> sep !in BodyLines(lines)[i]
  {
    if lines != [] {
      BodyLinesFrom(lines[1..], sep);
    }
  }

  /** The header checks: without a first "# " line that starts with `%ECSV` once
      trimmed, or without a truthy `datatype` in the YAML header, the reader rejects
      with the matching message. */
  lemma ParseEcsvRejections<T>(txt: string, yamlLoad: string -> YamlOutcome, parse: (JsValue, string) -> Result<T, JsError>)
    ensures var cs := CommentLines(Split(txt, '\n'));
      cs != [] && !StartsWith(Trim(cs[0]), "%ECSV") ==>
        ParseEcsv(txt, yamlLoad, parse) == Failure(Error(MissingHeader))
    ensures var cs := CommentLines(Split(txt, '\n'));
      cs != [] && StartsWith(Trim(cs[0]), "%ECSV") &&
      (yamlLoad(Join(cs[1..], "\n")).YamlNotMapping? ||
       (yamlLoad(Join(cs[1..], "\n")).YamlMapping? &&
        var h := yamlLoad(Join(cs[1..], "\n")).fields; !("datatype" in h && Truthy(h["datatype"])))) ==>
        ParseEcsv(txt, yamlLoad, parse) == Failure(Error(MissingDatatype))
  {
  }

  /** What a successful read is made of: a `%ECSV` first comment, a mapping header
      with a truthy `datatype`, the table parsed from exactly the body text with the
      header's delimiter (a space by default), and every header field present and
      winning over the computed `version` and `data`. */
  lemma ParseEcsvSuccess<T>(txt: string, yamlLoad: string -> YamlOutcome, parse: (JsValue, string) -> Result<T, JsError>)
    requires ParseEcsv(txt, yamlLoad, parse).Success?
    ensures var cs := CommentLines(Split(txt, '\n'));
      && cs != []
      && StartsWith(Trim(cs[0]), "%ECSV")
      && yamlLoad(Join(cs[1..], "\n")).YamlMapping?
      && var h := yamlLoad(Join(cs[1..], "\n")).fields;
      && "datatype" in h && Truthy(h["datatype"])
      && parse(Delimiter(h), EcsvBody(txt)).Success?
      && var doc := ParseEcsv(txt, yamlLoad, parse).value;
      && doc.Keys == h.Keys + {"version", "data"}
      && (forall k :: k in h ==> doc[k] == HeaderField(h[k]))
      && ("version" !in h ==> doc["version"] == VersionField(Slice(Trim(cs[0]), 6)))
      && ("data" !in h ==> doc["data"] == DataField(parse(Delimiter(h), EcsvBody(txt)).value))
  {
  }

  /** Past the `%ECSV` check the reader passes on what the libraries do: an exception
      of the YAML loader or of the table parser is the reader's own, and with a
      mapping header that has a truthy `datatype` and a table that parses, the
      reader succeeds with exactly the assembled object. */
  lemma ParseEcsvOutcomes<T>(txt: string, yamlLoad: string -> YamlOutcome, parse: (JsValue, string) -> Result<T, JsError>)
    ensures var cs := CommentLines(Split(txt, '\n'));
      cs != [] && StartsWith(Trim(cs[0]), "%ECSV") && yamlLoad(Join(cs[1..], "\n")).YamlThrows? ==>
        ParseEcsv(txt, yamlLoad, parse) == Failure(yamlLoad(Join(cs[1..], "\n")).error)
    ensures var cs := CommentLines(Split(txt, '\n'));
      cs != [] && StartsWith(Trim(cs[0]), "%ECSV") && yamlLoad(Join(cs[1..], "\n")).YamlMapping? ==>
        var h := yamlLoad(Join(cs[1..], "\n")).fields;
        var table := parse(Delimiter(h), EcsvBody(txt));
        "datatype" in h && Truthy(h["datatype"]) ==>
          && (table.Failure? ==> ParseEcsv(txt, yamlLoad, parse) == Failure(table.error))
          && (table.Success? ==>
                ParseEcsv(txt, yamlLoad, parse) == Success(Assemble(Slice(Trim(cs[0]), 6), table.value, h)))
  {
  }

  /** As written, text with no "# " line (here a single data row) ends in a TypeError
      rather than the `%ECSV` rejection. */
  lemma NoCommentLineIsTypeError<T>(yamlLoad: string -> YamlOutcome, parse: (JsValue, string) -> Result<T, JsError>)
    ensures ParseEcsv("1 2", yamlLoad, parse) == Failure(PropertyOfNullish(JsUndefined, "trim"))
    ensures ParseEcsvChecked("1 2", yamlLoad, parse) == Failure(Error(MissingHeader))
  {
    SplitWithoutSeparator("1 2", '\n');
    assert CommentLines(["1 2"]) == [] by { OneLine("1 2"); }
  }

  /** The intended reader rejects every text whose first "# " line, if any, does not
      start with `%ECSV`, with the one message for it; on text that has a "# " line it
      agrees with the reader as written. */
  lemma ParseEcsvCheckedHeader<T>(txt: string, yamlLoad: string -> YamlOutcome, parse: (JsValue, string) -> Result<T, JsError>)
    ensures var cs := CommentLines(Split(txt, '\n'));
      (cs == [] || !StartsWith(Trim(cs[0]), "%ECSV")) ==>
        ParseEcsvChecked(txt, yamlLoad, parse) == Failure(Error(MissingHeader))
    ensures CommentLines(Split(txt, '\n')) != [] ==>
      ParseEcsvChecked(txt, yamlLoad, parse) == ParseEcsv(txt, yamlLoad, parse)
  {
  }
}
