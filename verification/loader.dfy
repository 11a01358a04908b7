/** `parse_input_documents`: the documents to extract from, read from a text
    file (one document per line) or from a JSON array of objects. */
module Loader {
  import opened Wrappers
  import opened JsonValues

  /** One input document. The text is whatever value the input held: a line
      of a text file, or any JSON value under `--keydoc`. */
  datatype Document = Document(id: int, text: Json)

  /** `--input-type`: `txt`, `json`, or not given. */
  datatype InputType = TxtInput | JsonInput | NoInputType

  /** Why reading the input stops (a failed `assert`, or an exception). */
  datatype LoadError =
    | MalformedJson          // json.load raises
    | KeydocMissing          // --keydoc not given
    | NotAnArray             // the top-level value is not a list
    | EmptyArray             // input_json[0] raises IndexError
    | FirstNotObject         // input_json[0] is not a dict
    | KeydocNotInFirst       // the first object lacks --keydoc
    | NotAnObject(index: nat)             // indexing a non-dict item raises
    | MissingKey(index: nat, key: string) // KeyError on an item
    | IdNotInteger(index: nat)            // the --keyid value is not an integer

  // ---------------------------------------------------------------------
  // readlines

  /** Where the line starting at `i` ends: just after its newline, or at the
      end of the text. */
  function LineEnd(s: string, i: nat): (j: nat)
    requires i < |s|
    ensures i < j <= |s|
    ensures forall k :: i <= k < j - 1 ==> s[k] != '\n'
    ensures j == |s| || s[j - 1] == '\n'
    decreases |s| - i
  {
    if s[i] == '\n' || i + 1 == |s| then i + 1 else LineEnd(s, i + 1)
  }

  /** The lines of `s[i..]`. */
  function LinesFrom(s: string, i: nat): seq<string>
    requires i <= |s|
    decreases |s| - i
  {
    if i == |s| then [] else [s[i..LineEnd(s, i)]] + LinesFrom(s, LineEnd(s, i))
  }

  /** `f.readlines()`: every line keeps its newline; the last line has none
      when the text does not end in one. */
  function Lines(s: string): seq<string> {
    LinesFrom(s, 0)
  }

  function Concat(ls: seq<string>): string {
    if ls == [] then [] else ls[0] + Concat(ls[1..])
  }

  /** A line as `readlines` yields it: not empty, and its only newline, if
      any, is its last character. */
  predicate IsLine(l: string) {
    l != [] && forall k :: 0 <= k < |l| - 1 ==> l[k] != '\n'
  }

  predicate EndsWithNewline(l: string) {
    l != [] && l[|l| - 1] == '\n'
  }

  lemma {:induction false} LinesFromConcat(s: string, i: nat)
    requires i <= |s|
    ensures Concat(LinesFrom(s, i)) == s[i..]
    decreases |s| - i
  {
    if i < |s| {
      var j := LineEnd(s, i);
      LinesFromConcat(s, j);
      assert s[i..] == s[i..j] + s[j..];
    }
  }

  /** Joining the lines gives back the text. */
  lemma LinesConcat(s: string)
    ensures Concat(Lines(s)) == s
  {
    LinesFromConcat(s, 0);
  }

  lemma {:induction false} LinesFromShape(s: string, i: nat)
    requires i <= |s|
    ensures forall k :: 0 <= k < |LinesFrom(s, i)| ==> IsLine(LinesFrom(s, i)[k])
    ensures forall k :: 0 <= k < |LinesFrom(s, i)| - 1 ==> EndsWithNewline(LinesFrom(s, i)[k])
    decreases |s| - i
  {
    if i < |s| {
      var j := LineEnd(s, i);
      LinesFromShape(s, j);
      var l := s[i..j];
      assert forall k :: 0 <= k < |l| - 1 ==> l[k] == s[i + k];
      if j < |s| {
        assert LinesFrom(s, j) != [];
      }
    }
  }

  /** Every line is a proper line, and every line but the last ends with a
      newline. */
  lemma LinesShape(s: string)
    ensures forall k :: 0 <= k < |Lines(s)| ==> IsLine(Lines(s)[k])
    ensures forall k :: 0 <= k < |Lines(s)| - 1 ==> EndsWithNewline(Lines(s)[k])
  {
    LinesFromShape(s, 0);
  }

  /** The `txt` branch: line `i` is document `i`. */
  method ReadTxtDocuments(contents: string) returns (docs: seq<Document>)
    ensures |docs| == |Lines(contents)|
    ensures forall i :: 0 <= i < |docs| ==> docs[i] == Document(i, JString(Lines(contents)[i]))
  {
    var lines := Lines(contents);
    docs := [];
    for i := 0 to |lines|
      invariant |docs| == i
      invariant forall k :: 0 <= k < i ==> docs[k] == Document(k, JString(lines[k]))
    {
      docs := docs + [Document(i, JString(lines[i]))];
    }
  }

  // ---------------------------------------------------------------------
  // the json branch

  /** The `assert`s before the loop, in their order; on success, the items. */
  function Precheck(input: Option<Json>, keydoc: string): (r: Result<seq<Json>, LoadError>)
    ensures r.Ok? ==>
      input == Some(JArray(r.value)) && r.value != []
      && r.value[0].JObject? && keydoc in r.value[0].fields && keydoc != ""
    ensures (input.Some? && keydoc != "" && input.value.JArray? && input.value.items != []
             && input.value.items[0].JObject? && keydoc in input.value.items[0].fields) ==>
      r == Ok(input.value.items)
    ensures input.None? ==> r == Err(MalformedJson)
  {
    if input.None? then Err(MalformedJson)
    else if keydoc == "" then Err(KeydocMissing)
    else if !input.value.JArray? then Err(NotAnArray)
    else if input.value.items == [] then Err(EmptyArray)
    else if !input.value.items[0].JObject? then Err(FirstNotObject)
    else if keydoc !in input.value.items[0].fields then Err(KeydocNotInFirst)
    else Ok(input.value.items)
  }

  /** The document built from item `index`: its id (the `keyid` value, or
      the index when no `--keyid` is given) is read before its text. */
  function DocumentAt(item: Json, index: nat, keydoc: string, keyid: string): (r: Result<Document, LoadError>)
    ensures r.Ok? ==> item.JObject? && keydoc in item.fields && r.value.text == item.fields[keydoc]
    ensures r.Ok? && keyid == "" ==> r.value.id == index
    ensures r.Ok? && keyid != "" ==> keyid in item.fields && item.fields[keyid] == JNumber(r.value.id)
    ensures !item.JObject? ==> r == Err(NotAnObject(index))
    ensures item.JObject? && keyid != "" && keyid !in item.fields ==> r == Err(MissingKey(index, keyid))
    ensures (item.JObject? && keydoc in item.fields
             && (keyid == "" || (keyid in item.fields && item.fields[keyid].JNumber?))) ==> r.Ok?
  {
    if !item.JObject? then Err(NotAnObject(index))
    else
      var fields := item.fields;
      if keyid != "" && keyid !in fields then Err(MissingKey(index, keyid))
      else if keyid != "" && !fields[keyid].JNumber? then Err(IdNotInteger(index))
      else if keydoc !in fields then Err(MissingKey(index, keydoc))
      else Ok(Document(if keyid == "" then index else fields[keyid].n, fields[keydoc]))
  }

  /** The `json` branch: the prechecks, then one document per item; the
      first item that cannot be read stops the whole input. */
  method ReadJsonDocuments(input: Option<Json>, keydoc: string, keyid: string)
    returns (r: Result<seq<Document>, LoadError>)
    ensures Precheck(input, keydoc).Err? ==> r == Err(Precheck(input, keydoc).error)
    ensures Precheck(input, keydoc).Ok? && r.Ok? ==> var items := Precheck(input, keydoc).value;
      |r.value| == |items| && forall i :: 0 <= i < |items| ==> DocumentAt(items[i], i, keydoc, keyid) == Ok(r.value[i])
    ensures Precheck(input, keydoc).Ok? && r.Err? ==> var items := Precheck(input, keydoc).value;
      exists i :: 0 <= i < |items| && DocumentAt(items[i], i, keydoc, keyid) == Err(r.error)
        && forall j :: 0 <= j < i ==> DocumentAt(items[j], j, keydoc, keyid).Ok?
  {
    var checked := Precheck(input, keydoc);
    if checked.Err? {
      return Err(checked.error);
    }
    var items := checked.value;
    var docs: seq<Document> := [];
    for i := 0 to |items|
      invariant |docs| == i
      invariant forall k :: 0 <= k < i ==> DocumentAt(items[k], k, keydoc, keyid) == Ok(docs[k])
    {
      var doc := DocumentAt(items[i], i, keydoc, keyid);
      if doc.Err? {
        return Err(doc.error);
      }
      docs := docs + [doc.value];
    }
    return Ok(docs);
  }

  /** `parse_input_documents(args)`: `contents` is the input file's text and
      `parsed` what `json.load` makes of it (None when it raises). */
  method ParseInputDocuments(inputType: InputType, contents: string, parsed: Option<Json>, keydoc: string, keyid: string)
    returns (r: Result<seq<Document>, LoadError>)
    ensures inputType == NoInputType ==> r == Ok([])
    ensures inputType == TxtInput ==>
      r.Ok? && |r.value| == |Lines(contents)|
      && forall i :: 0 <= i < |r.value| ==> r.value[i] == Document(i, JString(Lines(contents)[i]))
    ensures inputType == JsonInput && Precheck(parsed, keydoc).Err? ==> r == Err(Precheck(parsed, keydoc).error)
    ensures inputType == JsonInput && r.Ok? ==>
      Precheck(parsed, keydoc).Ok?
      && |r.value| == |Precheck(parsed, keydoc).value|
      && forall i :: 0 <= i < |r.value| ==> DocumentAt(Precheck(parsed, keydoc).value[i], i, keydoc, keyid) == Ok(r.value[i])
    ensures inputType == JsonInput && Precheck(parsed, keydoc).Ok? && r.Err? ==> var items := Precheck(parsed, keydoc).value;
      exists i :: 0 <= i < |items| && DocumentAt(items[i], i, keydoc, keyid) == Err(r.error)
        && forall j :: 0 <= j < i ==> DocumentAt(items[j], j, keydoc, keyid).Ok?
  {
    match inputType
    case TxtInput =>
      var docs := ReadTxtDocuments(contents);
      r := Ok(docs);
    case JsonInput =>
      r := ReadJsonDocuments(parsed, keydoc, keyid);
    case NoInputType =>
      r := Ok([]);
  }

  /** Text documents: ids count the lines from 0, and the texts, joined,
      give back the file. */
  lemma TxtDocumentsCoverFile(contents: string, docs: seq<Document>)
    requires |docs| == |Lines(contents)|
    requires forall i :: 0 <= i < |docs| ==> docs[i] == Document(i, JString(Lines(contents)[i]))
    ensures Concat(seq(|docs|, i requires 0 <= i < |docs| => docs[i].text.s)) == contents
  {
    assert seq(|docs|, i requires 0 <= i < |docs| => docs[i].text.s) == Lines(contents);
    LinesConcat(contents);
  }
}
