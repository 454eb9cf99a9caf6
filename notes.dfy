/** The note editor of markdownEditor.js: the toolbar's insertion of markdown
    syntax around the selection, the title a saved note takes from its first
    heading line, the excerpt shown in the notes list, and the list of notes
    the editor creates, selects and saves. The text box is its value plus the
    selection bounds the browser reports. */
module Notes {
  import opened Base
  import opened Text

  datatype Note = Note(id: string, title: string, content: string, created: string, updated: string)

  // ---------------------------------------------------------------- toolbar

  /** What a toolbar command inserts, and how far back from the end of the
      insertion the cursor is put. */
  datatype Edit = Edit(insertion: string, cursorOffset: int)

  predicate IsCommand(command: string)
  {
    command in {"bold", "italic", "heading", "list-ul", "list-ol", "link", "image", "code"}
  }

  /** `selection || placeholder`: an empty selection is falsy. */
  function OrPlaceholder(selection: string, placeholder: string): (r: string)
    ensures selection != [] ==> r == selection
  {
    if selection == [] then placeholder else selection
  }

  /** Whether a 'code' command produces a fenced block: the selection spans lines. */
  predicate IsFenced(command: string, selection: string)
  {
    command == "code" && '\n' in selection
  }

  /** The text a command shows when nothing is selected. */
  function Placeholder(command: string, selection: string): string
  {
    if command == "bold" then "bold text"
    else if command == "italic" then "italic text"
    else if command == "heading" then "Heading"
    else if command == "list-ul" || command == "list-ol" then "List item"
    else if command == "link" then "link text"
    else if command == "image" then "alt text"
    else if IsFenced(command, selection) then "code block"
    else "code"
  }

  /** The markup a command writes before the selection. */
  function Opening(command: string, selection: string): string
  {
    if command == "bold" then "**"
    else if command == "italic" then "*"
    else if command == "heading" then "### "
    else if command == "list-ul" then "\n- "
    else if command == "list-ol" then "\n1. "
    else if command == "link" then "["
    else if command == "image" then "!["
    else if IsFenced(command, selection) then "```\n"
    else "`"
  }

  /** The markup a command writes after the selection. */
  function Closing(command: string, selection: string): string
  {
    if command == "bold" then "**"
    else if command == "italic" then "*"
    else if command == "heading" then ""
    else if command == "list-ul" then "\n- \n- "
    else if command == "list-ol" then "\n2. \n3. "
    else if command == "link" then "](https://example.com)"
    else if command == "image" then "](https://example.com/image.jpg)"
    else if IsFenced(command, selection) then "\n```"
    else "`"
  }

  /** The cursor offset of a command when nothing is selected. */
  function EmptyOffset(command: string, selection: string): int
  {
    if command == "bold" then -2
    else if command == "list-ul" then -4
    else if command == "list-ol" then -6
    else if command == "heading" || IsFenced(command, selection) then 0
    else -1
  }

  /** The `switch (command)` of `insertMarkdownSyntax`: a known command wraps
      the selection, or its placeholder, in its markup; any other command
      inserts nothing. The cursor offset only applies without a selection. */
  function Insertion(command: string, selection: string): (e: Edit)
    ensures selection != [] ==> e.cursorOffset == 0
    ensures -|e.insertion| <= e.cursorOffset <= 0
    ensures !IsCommand(command) ==> e == Edit("", 0)
    ensures IsCommand(command) ==>
      OccursAt(e.insertion, OrPlaceholder(selection, Placeholder(command, selection)),
               |Opening(command, selection)|)
  {
    if !IsCommand(command) then Edit("", 0)
    else
      var s := OrPlaceholder(selection, Placeholder(command, selection));
      var ins := Opening(command, selection) + s + Closing(command, selection);
      assert ins[|Opening(command, selection)|..|Opening(command, selection)| + |s|] == s;
      Edit(ins, if selection == [] then EmptyOffset(command, selection) else 0)
  }

  /** With a selection the cursor ends up after the whole insertion; without
      one, bold, italic, heading and inline code leave it right after the
      placeholder, and link and image leave it just before the closing `)`. */
  lemma CursorPlacement(command: string, selection: string)
    ensures var e := Insertion(command, selection);
      && (selection != [] ==> |e.insertion| + e.cursorOffset == |e.insertion|)
      && (selection == [] && command in {"bold", "italic", "heading", "code"} ==>
            |e.insertion| + e.cursorOffset
            == |Opening(command, selection)| + |Placeholder(command, selection)|)
      && (selection == [] && command in {"link", "image"} ==>
            e.insertion[|e.insertion| + e.cursorOffset] == ')')
  {
  }

  /** A known command's insertion is its opening markup, the selection or the
      placeholder, and its closing markup. */
  lemma InsertionParts(command: string, selection: string)
    requires IsCommand(command)
    ensures Insertion(command, selection)
            == Edit(Opening(command, selection)
                    + OrPlaceholder(selection, Placeholder(command, selection))
                    + Closing(command, selection),
                    if selection == [] then EmptyOffset(command, selection) else 0)
  {
  }

  /** With a selection the inline commands wrap it in their markup and leave
      the cursor at the end. */
  lemma SelectionWrapped(selection: string)
    requires selection != []
    ensures Insertion("bold", selection) == Edit("**" + selection + "**", 0)
    ensures Insertion("italic", selection) == Edit("*" + selection + "*", 0)
    ensures Insertion("heading", selection) == Edit("### " + selection, 0)
    ensures Insertion("link", selection) == Edit("[" + selection + "](https://example.com)", 0)
    ensures Insertion("image", selection)
            == Edit("![" + selection + "](https://example.com/image.jpg)", 0)
  {
    InsertionParts("bold", selection);
    InsertionParts("italic", selection);
    InsertionParts("heading", selection);
    assert "### " + selection + "" == "### " + selection;
    InsertionParts("link", selection);
    InsertionParts("image", selection);
  }

  /** With a selection a list starts on a new line with the selection as its
      first item, and 'code' fences a selection that spans lines and quotes
      any other. */
  lemma SelectionBlock(selection: string)
    requires selection != []
    ensures Insertion("list-ul", selection) == Edit("\n- " + selection + "\n- \n- ", 0)
    ensures Insertion("list-ol", selection) == Edit("\n1. " + selection + "\n2. \n3. ", 0)
    ensures '\n' in selection ==> Insertion("code", selection) == Edit("```\n" + selection + "\n```", 0)
    ensures '\n' !in selection ==> Insertion("code", selection) == Edit("`" + selection + "`", 0)
  {
    InsertionParts("list-ul", selection);
    InsertionParts("list-ol", selection);
    InsertionParts("code", selection);
  }

  /** Without a selection the inline commands insert their placeholder in
      their markup: the cursor goes right after the placeholder, or just
      before the `)` of a link or an image. */
  lemma PlaceholderInserted()
    ensures Insertion("bold", "") == Edit("**" + "bold text" + "**", -2)
    ensures Insertion("italic", "") == Edit("*" + "italic text" + "*", -1)
    ensures Insertion("heading", "") == Edit("### " + "Heading", 0)
    ensures Insertion("link", "") == Edit("[" + "link text" + "](https://example.com)", -1)
    ensures Insertion("image", "")
            == Edit("![" + "alt text" + "](https://example.com/image.jpg)", -1)
    ensures Insertion("code", "") == Edit("`" + "code" + "`", -1)
  {
    InsertionParts("bold", "");
    InsertionParts("italic", "");
    InsertionParts("heading", "");
    assert "### " + "Heading" + "" == "### " + "Heading";
    InsertionParts("link", "");
    InsertionParts("image", "");
    InsertionParts("code", "");
  }

  /** An empty bulleted list: the placeholder item and two empty items, with
      the cursor between the "-" of the second item and the space after it. */
  lemma BulletedListCursor()
    ensures var e := Insertion("list-ul", "");
      && e == Edit("\n- " + "List item" + "\n-" + " \n- ", -4)
      && |e.insertion| + e.cursorOffset == |"\n- " + "List item" + "\n-"|
  {
    InsertionParts("list-ul", "");
    assert Closing("list-ul", "") == "\n-" + " \n- ";
  }

  /** An empty numbered list: the placeholder item and items 2 and 3, with
      the cursor right after the "2". */
  lemma NumberedListCursor()
    ensures var e := Insertion("list-ol", "");
      && e == Edit("\n1. " + "List item" + "\n2" + ". \n3. ", -6)
      && |e.insertion| + e.cursorOffset == |"\n1. " + "List item" + "\n2"|
  {
    InsertionParts("list-ol", "");
    assert Closing("list-ol", "") == "\n2" + ". \n3. ";
  }

  /** `text.substring(0, start) + insertion + text.substring(end)`. */
  function Splice(text: string, start: int, end: int, insertion: string): (r: string)
    requires 0 <= start <= end <= |text|
    ensures |r| == |text| - (end - start) + |insertion|
    ensures r[..start] == text[..start]
    ensures r[start..start + |insertion|] == insertion
    ensures r[start + |insertion|..] == text[end..]
  {
    text[..start] + insertion + text[end..]
  }

  // ---------------------------------------------------------------- title

  const UntitledNote: string := "Untitled Note"
  /** "# Untitled Note", a blank line, then "Start writing here...". */
  const NewNoteContent: string := "# " + UntitledNote + "\n" + "\nStart writing here..."

  /** The lines `^` and `$` delimit in a multiline regular expression. */
  function Lines(content: string): seq<string>
  {
    SplitBy(content, IsLineTerminator)
  }

  /** A line matching `^# (.+)$`: "# " and at least one more character. */
  predicate IsHeadingLine(line: string)
  {
    |line| >= 3 && line[0] == '#' && line[1] == ' '
  }

  /** The title `saveCurrentNote` gives a note: the trimmed text after "# " on
      the first heading line anywhere in the content, or 'Untitled Note'. */
  function TitleOf(content: string): (r: string)
    ensures NoSeparator(r, IsLineTerminator)
    ensures (forall j :: 0 <= j < |Lines(content)| ==> !IsHeadingLine(Lines(content)[j]))
            ==> r == UntitledNote
  {
    var lines := Lines(content);
    var k := FindIndex(lines, IsHeadingLine);
    if k < 0 then UntitledNote
    else
      var t := Trim(lines[k][2..]);
      assert NoSeparator(t, IsLineTerminator) by {
        SplitByPartsFree(content, IsLineTerminator);
        NoSeparatorSlice(lines[k], 2, IsLineTerminator);
        TrimNoSeparator(lines[k][2..], IsLineTerminator);
      }
      t
  }

  /** A content whose first line is "# X" (X not empty) is titled trim(X),
      whatever follows the line break. */
  lemma TitleOfHeading(x: string, c: char, rest: string)
    requires x != [] && NoSeparator(x, IsLineTerminator) && IsLineTerminator(c)
    ensures TitleOf("# " + x + [c] + rest) == Trim(x)
  {
    HeadingFirstLine(x, c, rest);
    TitleOfFirstLine("# " + x + [c] + rest);
    assert ("# " + x)[2..] == x;
  }

  lemma HeadingFirstLine(x: string, c: char, rest: string)
    requires NoSeparator(x, IsLineTerminator) && IsLineTerminator(c)
    ensures Lines("# " + x + [c] + rest)[0] == "# " + x
  {
    var line := "# " + x;
    assert NoSeparator(line, IsLineTerminator) by {
      assert forall i :: 2 <= i < |line| ==> line[i] == x[i - 2];
    }
    SplitByFirst(line, c, rest, IsLineTerminator);
  }

  /** No line of `content` is a heading line. */
  predicate NoHeadingLine(content: string)
  {
    forall j :: 0 <= j < |Lines(content)| ==> !IsHeadingLine(Lines(content)[j])
  }

  /** A heading line after lines that are not headings gives the title. */
  lemma {:induction false} TitleOfLaterHeading(p: string, c: char, x: string, d: char, rest: string)
    requires NoHeadingLine(p)
    requires x != [] && NoSeparator(x, IsLineTerminator)
    requires IsLineTerminator(c) && IsLineTerminator(d)
    ensures TitleOf(p + [c] + ("# " + x + [d] + rest)) == Trim(x)
    decreases |p|
  {
    var tail := "# " + x + [d] + rest;
    var k := FindIndex(p, IsLineTerminator);
    if k < 0 {
      assert Lines(p) == [p];
      assert !IsHeadingLine(Lines(p)[0]);
      TitleOfHeading(x, d, rest);
      TitleSkipsPlainLine(p, c, tail);
    } else {
      var w := p[k + 1..];
      PlainLinesAfterFirst(p, k);
      TitleOfLaterHeading(w, c, x, d, rest);
      TitleSkipsFirstLine(p, k, c, tail);
    }
  }

  /** The lines after the first line of `p` are the lines of the text after
      its first line terminator, at `k`. */
  lemma PlainLinesAfterFirst(p: string, k: int)
    requires 0 <= k && FindIndex(p, IsLineTerminator) == k && NoHeadingLine(p)
    ensures NoHeadingLine(p[k + 1..]) && !IsHeadingLine(p[..k])
  {
    var w := p[k + 1..];
    assert Lines(p) == [p[..k]] + Lines(w);
    assert Lines(p)[0] == p[..k];
    forall j | 0 <= j < |Lines(w)|
      ensures !IsHeadingLine(Lines(w)[j])
    {
      assert Lines(w)[j] == Lines(p)[j + 1];
    }
  }

  /** The first line of `p`, when not a heading, plays no part in the title. */
  lemma TitleSkipsFirstLine(p: string, k: int, c: char, tail: string)
    requires 0 <= k && FindIndex(p, IsLineTerminator) == k && !IsHeadingLine(p[..k])
    ensures TitleOf(p + [c] + tail) == TitleOf(p[k + 1..] + [c] + tail)
  {
    var u, e, w := p[..k], p[k], p[k + 1..];
    assert p + [c] + tail == u + [e] + (w + [c] + tail);
    TitleSkipsPlainLine(u, e, w + [c] + tail);
  }

  /** A first line that is not a heading line plays no part in the title. */
  lemma TitleSkipsPlainLine(u: string, c: char, rest: string)
    requires NoSeparator(u, IsLineTerminator) && !IsHeadingLine(u) && IsLineTerminator(c)
    ensures TitleOf(u + [c] + rest) == TitleOf(rest)
  {
    var lines := Lines(u + [c] + rest);
    SplitByFirst(u, c, rest, IsLineTerminator);
    assert lines[0] == u && lines[1..] == Lines(rest);
  }

  /** A content whose first line is a heading line takes its title from it. */
  lemma TitleOfFirstLine(content: string)
    requires IsHeadingLine(Lines(content)[0])
    ensures TitleOf(content) == Trim(Lines(content)[0][2..])
  {
    assert FindIndex(Lines(content), IsHeadingLine) == 0;
  }

  /** A note saved as created keeps the title it was created with. */
  lemma NewNoteTitle()
    ensures TitleOf(NewNoteContent) == UntitledNote
  {
    var u, rest := UntitledNote, "\nStart writing here...";
    assert NewNoteContent == "# " + u + ['\n'] + rest;
    TitleOfTrimmedHeading(u, '\n', rest);
  }

  lemma TitleOfTrimmedHeading(x: string, c: char, rest: string)
    requires x != [] && NoSeparator(x, IsLineTerminator) && IsLineTerminator(c)
    requires !IsJsSpace(x[0]) && !IsJsSpace(x[|x| - 1])
    ensures TitleOf("# " + x + [c] + rest) == x
  {
    TitleOfHeading(x, c, rest);
    TrimUnchanged(x);
  }

  // ---------------------------------------------------------------- excerpt

  predicate IsMarkup(c: char)
  {
    c == '#' || c == '_' || c == '*' || c == '`'
  }

  predicate NoMarkup(s: string)
  {
    forall i :: 0 <= i < |s| ==> !IsMarkup(s[i])
  }

  /** The length of the run of '#' that `s` starts with. */
  function HashRun(s: string): (n: nat)
    ensures n <= |s|
    ensures forall i :: 0 <= i < n ==> s[i] == '#'
    ensures n < |s| ==> s[n] != '#'
  {
    if s != [] && s[0] == '#' then 1 + HashRun(s[1..]) else 0
  }

  /** `replace(/#+\s|_|\*\*|\*|`|#/g, '')`: a run of '#' with the white space
      after it goes, as do every other '#', '_', '*' and '`'. */
  function Strip(s: string): (r: string)
    ensures |r| <= |s|
    ensures NoMarkup(r)
    decreases |s|
  {
    if s == [] then []
    else if s[0] == '#' then
      var n := HashRun(s);
      if n < |s| && IsJsSpace(s[n]) then Strip(s[n + 1..]) else Strip(s[1..])
    else if IsMarkup(s[0]) then Strip(s[1..])
    else [s[0]] + Strip(s[1..])
  }

  /** Text without markup characters is left as it is. */
  lemma {:induction false} StripClean(s: string)
    requires NoMarkup(s)
    ensures Strip(s) == s
    decreases |s|
  {
    if s != [] {
      StripClean(s[1..]);
      assert s == [s[0]] + s[1..];
    }
  }

  /** Stripping twice strips no more than once. */
  lemma StripIdempotent(s: string)
    ensures Strip(Strip(s)) == Strip(s)
  {
    StripClean(Strip(s));
  }

  /** The excerpt under a note's title: the first 60 characters of the
      stripped content, followed by '...' when there were at least 60. */
  function Excerpt(content: string): (r: string)
    ensures NoMarkup(r)
    ensures |Strip(content)| < 60 ==> r == Strip(content)
    ensures |Strip(content)| >= 60 ==>
      |r| == 63 && r[..60] == Strip(content)[..60] && r[60..] == "..."
  {
    var t := Strip(content);
    var e := if |t| < 60 then t else t[..60];
    if |e| == 60 then e + "..." else e
  }

  // ---------------------------------------------------------------- search

  /** `filterNotes`: a note stays visible iff the lower-cased search text occurs
      in its lower-cased title or excerpt. */
  predicate Shown(note: Note, term: string)
  {
    Contains(Lower(note.title), term) || Contains(Lower(Excerpt(note.content)), term)
  }

  function ShownFor(term: string): Note -> bool
  {
    (note: Note) => Shown(note, term)
  }

  /** The notes left visible after typing `search` into the search box. */
  function VisibleNotes(notes: seq<Note>, search: string): seq<Note>
  {
    Filter(notes, ShownFor(Lower(search)))
  }

  /** The visible notes are exactly those shown for the term, in list order. */
  lemma VisibleNotesSpec(notes: seq<Note>, search: string)
    ensures var v := VisibleNotes(notes, search);
      && IsSubsequence(v, notes)
      && (forall n :: n in v <==> n in notes && Shown(n, Lower(search)))
  {
    FilterIsSubsequence(notes, ShownFor(Lower(search)));
  }

  /** An empty search box shows every note. */
  lemma EmptySearchShowsAll(notes: seq<Note>)
    ensures VisibleNotes(notes, "") == notes
  {
    assert forall i :: 0 <= i < |notes| ==> ShownFor("")(notes[i]);
    FilterAll(notes, ShownFor(""));
  }

  // ---------------------------------------------------------------- editor state

  function HasId(id: string): Note -> bool
  {
    (n: Note) => n.id == id
  }

  class Editor {
    var notes: seq<Note>
    /** `currentNoteId`; `None` stands for `null`. */
    var currentNoteId: Option<string>
    /** The value of the markdown text box. */
    var input: string

    /** `init` with the notes already loaded: the first note, if any, is selected. */
    constructor (loaded: seq<Note>)
      ensures notes == loaded
      ensures loaded == [] ==> currentNoteId == None && input == ""
      ensures loaded != [] ==> currentNoteId == Some(loaded[0].id) && input == loaded[0].content
    {
      notes := loaded;
      currentNoteId := None;
      input := "";
      if loaded != [] {
        currentNoteId := Some(loaded[0].id);
        input := loaded[0].content;
      }
    }

    /** `selectNote(noteId)`: the id becomes current even when no note has it;
        a note that exists is loaded into the text box. */
    method SelectNote(noteId: string)
      modifies this
      ensures notes == old(notes) && currentNoteId == Some(noteId)
      ensures var k := FindIndex(notes, HasId(noteId));
        (k < 0 ==> input == old(input)) && (k >= 0 ==> input == notes[k].content)
    {
      currentNoteId := Some(noteId);
      var k := FindIndex(notes, HasId(noteId));
      if k < 0 {
        return;
      }
      input := notes[k].content;
    }

    /** `insertMarkdownSyntax(command)` on the selection `[start, end)`: the
        selection is replaced by the command's insertion and the new cursor
        position is returned. */
    method InsertMarkdownSyntax(command: string, start: int, end: int) returns (cursor: int)
      requires 0 <= start <= end <= |input|
      modifies this
      ensures notes == old(notes) && currentNoteId == old(currentNoteId)
      ensures var e := Insertion(command, old(input)[start..end]);
        && input == Splice(old(input), start, end, e.insertion)
        && cursor == start + |e.insertion| + e.cursorOffset
      ensures input[..start] == old(input)[..start]
      ensures input[|input| - (|old(input)| - end)..] == old(input)[end..]
      ensures start <= cursor <= |input| - (|old(input)| - end)
      ensures !IsCommand(command) ==> input == old(input)[..start] + old(input)[end..]
    {
      var e := Insertion(command, input[start..end]);
      input := Splice(input, start, end, e.insertion);
      cursor := start + |e.insertion| + e.cursorOffset;
    }

    /** `saveCurrentNote(now)`: the text box becomes the current note's content
        and its title is taken from its first heading line; only that note changes. */
    method SaveCurrentNote(now: string)
      modifies this
      ensures input == old(input) && currentNoteId == old(currentNoteId)
      ensures var k := if currentNoteId.None? || currentNoteId.value == "" then -1
                       else FindIndex(old(notes), HasId(currentNoteId.value));
        && (k < 0 ==> notes == old(notes))
        && (k >= 0 ==>
              notes == old(notes)[k := old(notes)[k].(title := TitleOf(input),
                                                      content := input, updated := now)])
    {
      if currentNoteId.None? || currentNoteId.value == "" {
        return;
      }
      var k := FindIndex(notes, HasId(currentNoteId.value));
      if k < 0 {
        return;
      }
      notes := notes[k := notes[k].(title := TitleOf(input), content := input, updated := now)];
    }

    /** `createNewNote()` at the time `nowMs` (whose ISO text is `nowIso`): a new
        note goes in front of the others and is selected. */
    method CreateNewNote(nowMs: int, nowIso: string)
      modifies this
      ensures var id := "note-" + IntToString(nowMs);
        && notes == [Note(id, UntitledNote, NewNoteContent, nowIso, nowIso)] + old(notes)
        && currentNoteId == Some(id)
      ensures input == NewNoteContent
      ensures notes[1..] == old(notes)
    {
      var note := Note("note-" + IntToString(nowMs), UntitledNote, NewNoteContent, nowIso, nowIso);
      notes := [note] + notes;
      SelectNote(note.id);
    }
  }
}
