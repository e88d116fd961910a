/**
 * The legacy images list (tools/pkg/legacy/list.go): one mirror entry per line, written
 * as "source destination tag"; empty lines and lines starting with "#" are skipped.
 * Reading the file is not part of this model: the parser starts from its contents.
 */
module LegacyList {
  import opened Wrappers
  import opened Text
  import opened Dynamic

  datatype ImagesListEntry = ImagesListEntry(source: string, destination: string, tag: string)

  /** Comments and empty lines carry no entry. */
  predicate Skipped(line: string)
  {
    HasPrefix(line, "#") || line == ""
  }

  function LineError(line: string): string
  {
    "line " + Quote(line) + " does not have 3 elements"
  }

  /** A meaningful line: exactly three elements separated by single spaces. */
  function ParseLine(line: string): (r: Result<ImagesListEntry>)
  {
    var elements := Split(line, ' ');
    if |elements| != 3 then Err(LineError(line))
    else Ok(ImagesListEntry(elements[0], elements[1], elements[2]))
  }

  /** The loop over the lines: skipped lines are passed over, the first bad line stops the parse. */
  function ParseLines(lines: seq<string>): Result<seq<ImagesListEntry>>
  {
    if lines == [] then Ok([])
    else
      var prev :- ParseLines(lines[..|lines| - 1]);
      var line := lines[|lines| - 1];
      if Skipped(line) then Ok(prev)
      else
        var entry :- ParseLine(line);
        Ok(prev + [entry])
  }

  /** The lines that hold an entry, in file order. */
  function Meaningful(lines: seq<string>): (r: seq<string>)
    ensures forall l :: l in r <==> l in lines && !Skipped(l)
  {
    if lines == [] then []
    else
      var line := lines[|lines| - 1];
      assert lines == lines[..|lines| - 1] + [line];
      Meaningful(lines[..|lines| - 1]) + (if Skipped(line) then [] else [line])
  }

  /**
   * A parse succeeds exactly when every meaningful line has three elements; it then yields
   * one entry per meaningful line, in order, made of that line's three elements.
   */
  lemma {:induction false} ParseLinesSpec(lines: seq<string>)
    ensures ParseLines(lines).Ok? <==> forall l | l in Meaningful(lines) :: ParseLine(l).Ok?
    ensures ParseLines(lines).Ok? ==>
      var m := Meaningful(lines);
      && |ParseLines(lines).value| == |m|
      && forall i :: 0 <= i < |m| ==> ParseLine(m[i]) == Ok(ParseLines(lines).value[i])
  {
    if lines != [] {
      var init := lines[..|lines| - 1];
      ParseLinesSpec(init);
      var line := lines[|lines| - 1];
      assert Meaningful(lines) == Meaningful(init) + (if Skipped(line) then [] else [line]);
    }
  }

  /** A failed parse names the first meaningful line that does not have three elements. */
  lemma {:induction false} ParseLinesError(lines: seq<string>)
    ensures ParseLines(lines).Err? ==>
      exists k :: && 0 <= k < |lines| && !Skipped(lines[k]) && |Split(lines[k], ' ')| != 3
                  && ParseLines(lines[..k]).Ok?
                  && ParseLines(lines).error == LineError(lines[k])
  {
    if lines != [] {
      var init := lines[..|lines| - 1];
      ParseLinesError(init);
      if ParseLines(init).Err? {
        var k :| && 0 <= k < |init| && !Skipped(init[k]) && |Split(init[k], ' ')| != 3
                 && ParseLines(init[..k]).Ok? && ParseLines(init).error == LineError(init[k]);
        assert init[..k] == lines[..k];
      } else {
        assert lines[..|lines| - 1] == init;
      }
    }
  }

  lemma ParseLinesPrefix(lines: seq<string>, i: int)
    requires 0 <= i < |lines|
    ensures ParseLines(lines[..i + 1]) ==
      (var prev := ParseLines(lines[..i]);
       if prev.Err? || Skipped(lines[i]) then prev
       else var entry := ParseLine(lines[i]);
            if entry.Err? then Err(entry.error) else Ok(prev.value + [entry.value]))
  {
    assert lines[..i + 1][..i] == lines[..i];
  }

  /** Once the lines up to `i` fail, the later lines change nothing. */
  lemma {:induction false} ParseLinesErrPersists(lines: seq<string>, i: int)
    requires 0 <= i <= |lines| && ParseLines(lines[..i]).Err?
    ensures ParseLines(lines) == ParseLines(lines[..i])
    decreases |lines| - i
  {
    if i < |lines| {
      ParseLinesPrefix(lines, i);
      ParseLinesErrPersists(lines, i + 1);
    } else {
      assert lines[..i] == lines;
    }
  }

  /** `ParseImagesList` on the file contents: the contents split on "\n", then parsed line by line. */
  method ParseImagesList(contents: string) returns (r: Result<seq<ImagesListEntry>>)
    ensures r == ParseLines(Split(contents, '\n'))
  {
    var lines := Split(contents, '\n');
    var imagesList: seq<ImagesListEntry> := [];
    var i := 0;
    while i < |lines|
      invariant 0 <= i <= |lines|
      invariant ParseLines(lines[..i]) == Ok(imagesList)
    {
      ParseLinesPrefix(lines, i);
      var line := lines[i];
      if !(HasPrefix(line, "#") || line == "") {
        var elements := Split(line, ' ');
        if |elements| != 3 {
          ParseLinesErrPersists(lines, i + 1);
          return Err("line " + Quote(line) + " does not have 3 elements");
        }
        imagesList := imagesList + [ImagesListEntry(elements[0], elements[1], elements[2])];
      }
      i := i + 1;
    }
    assert lines[..i] == lines;
    r := Ok(imagesList);
  }

  // ---------------------------------------------------------------------------
  // Writing a list back

  /** An entry as a line of the list. */
  function EntryLine(e: ImagesListEntry): string
  {
    e.source + " " + e.destination + " " + e.tag
  }

  function EntryLines(entries: seq<ImagesListEntry>): (r: seq<string>)
    ensures |r| == |entries|
    ensures forall i :: 0 <= i < |entries| ==> r[i] == EntryLine(entries[i])
  {
    seq(|entries|, i requires 0 <= i < |entries| => EntryLine(entries[i]))
  }

  /** An entry the list format can carry: no separator inside a field, no "#" starting the line. */
  predicate Writable(e: ImagesListEntry)
  {
    && ' ' !in e.source && ' ' !in e.destination && ' ' !in e.tag
    && '\n' !in e.source && '\n' !in e.destination && '\n' !in e.tag
    && !HasPrefix(e.source, "#")
  }

  /** A written line parses back into its entry. */
  lemma EntryLineRoundTrip(e: ImagesListEntry)
    requires Writable(e)
    ensures !Skipped(EntryLine(e))
    ensures '\n' !in EntryLine(e)
    ensures ParseLine(EntryLine(e)) == Ok(e)
  {
    var line := EntryLine(e);
    assert line == e.source + [' '] + (e.destination + [' '] + e.tag);
    SplitNoSep(e.source, ' ');
    SplitNoSep(e.destination, ' ');
    SplitNoSep(e.tag, ' ');
    SplitAround(e.destination, e.tag, ' ');
    SplitAround(e.source, e.destination + [' '] + e.tag, ' ');
  }

  /** Parsing the entries' lines gives back the entries. */
  lemma {:induction false} ParseWrittenList(entries: seq<ImagesListEntry>)
    requires forall i :: 0 <= i < |entries| ==> Writable(entries[i])
    ensures ParseLines(EntryLines(entries)) == Ok(entries)
  {
    if entries != [] {
      var init := entries[..|entries| - 1];
      ParseWrittenList(init);
      var last := entries[|entries| - 1];
      EntryLineRoundTrip(last);
      var lines := EntryLines(entries);
      assert lines[..|lines| - 1] == EntryLines(init);
      assert lines[|lines| - 1] == EntryLine(last);
      assert init + [last] == entries;
    }
  }

  /** The round trip through the file contents: the list, one line per entry, parses back. */
  lemma ParseImagesListRoundTrip(entries: seq<ImagesListEntry>)
    requires forall i :: 0 <= i < |entries| ==> Writable(entries[i])
    ensures ParseLines(Split(Join(EntryLines(entries), '\n'), '\n')) == Ok(entries)
  {
    if entries == [] {
      assert Split(Join(EntryLines(entries), '\n'), '\n') == [""];
      assert [""][..0] == [];
      return;
    }
    forall i | 0 <= i < |entries| ensures '\n' !in EntryLines(entries)[i] {
      EntryLineRoundTrip(entries[i]);
    }
    SplitJoin(EntryLines(entries), '\n');
    ParseWrittenList(entries);
  }
}
