/** IconText: the editable name and the secondary caption text of an icon,
    and the icon's tooltip description. */
module IconText {
  import opened Quarks
  import opened Files
  import opened Captions

  /** An optional out-parameter: `NoSlot` when the caller passed NULL (and
      so nothing is written), `Filled(t)` with what was written otherwise. */
  datatype TextSlot = NoSlot | Filled(text: Option<string>)

  // Joining and splitting caption lines

  /** "\n" in front of each part, concatenated. */
  function PrefixEach(parts: seq<string>): string
  {
    if parts == [] then "" else "\n" + parts[0] + PrefixEach(parts[1..])
  }

  /** g_strjoinv ("\n", parts): the parts with "\n" between neighbours. */
  function JoinLines(parts: seq<string>): string
  {
    if parts == [] then "" else parts[0] + PrefixEach(parts[1..])
  }

  /** The lines of a text, split at every "\n"; a text has at least one line. */
  function SplitLines(s: string): (lines: seq<string>)
    ensures |lines| >= 1
  {
    if s == [] then [""]
    else if s[0] == '\n' then [""] + SplitLines(s[1..])
    else
      var rest := SplitLines(s[1..]);
      [[s[0]] + rest[0]] + rest[1..]
  }

  predicate OneLine(p: string)
  {
    forall i :: 0 <= i < |p| ==> p[i] != '\n'
  }

  /** A newline-free prefix is glued to the first line of what follows. */
  lemma {:induction false} SplitLinesGlue(p: string, t: string)
    requires OneLine(p)
    ensures SplitLines(p + t) == [p + SplitLines(t)[0]] + SplitLines(t)[1..]
  {
    if p != [] {
      assert (p + t)[0] == p[0];
      assert (p + t)[1..] == p[1..] + t;
      SplitLinesGlue(p[1..], t);
      assert [p[0]] + (p[1..] + SplitLines(t)[0]) == p + SplitLines(t)[0];
    } else {
      var lines := SplitLines(t);
      assert p + t == t && p + lines[0] == lines[0];
      assert [lines[0]] + lines[1..] == lines;
    }
  }

  /** The join of non-empty newline-free parts splits back into those parts. */
  lemma {:induction false} SplitJoinLines(parts: seq<string>)
    requires parts != []
    requires forall k :: 0 <= k < |parts| ==> OneLine(parts[k])
    ensures SplitLines(JoinLines(parts)) == parts
  {
    if |parts| == 1 {
      assert JoinLines(parts) == parts[0] + "";
      SplitLinesGlue(parts[0], "");
      assert parts[0] + "" == parts[0];
    } else {
      var tail := parts[1..];
      assert JoinLines(parts) == parts[0] + ("\n" + JoinLines(tail)) by {
        assert PrefixEach(tail) == "\n" + tail[0] + PrefixEach(tail[1..]);
      }
      SplitLinesGlue(parts[0], "\n" + JoinLines(tail));
      assert ("\n" + JoinLines(tail))[1..] == JoinLines(tail);
      SplitJoinLines(tail);
      assert parts[0] + "" == parts[0];
    }
  }

  /** Joining a single part leaves it unchanged, so returning the only value
      without a join is the same as joining. */
  lemma JoinLinesSingle(v: string)
    ensures JoinLines([v]) == v
  {
  }

  // Collecting attribute values

  /** The value one token contributes: nothing for the "none" token or for
      an attribute the file has no string for, its string otherwise. */
  function TokenValue(fm: FileModel, file: File, token: Quark, noneQuark: Quark): seq<string>
  {
    if token == noneQuark then []
    else match fm.stringAttribute(file, token)
      case None => []
      case Some(text) => [text]
  }

  /** With the "none" quark taken from the registry that interned the
      preference, a token is skipped as "none" exactly when its preference
      string was "none"; every other token contributes its attribute value. */
  lemma TokenValueOfPreference(fm: FileModel, file: File, registry: QuarkRegistry, name: string)
    requires registry.Valid() && name in registry.quarks && "none" in registry.quarks
    ensures TokenValue(fm, file, registry.quarks[name], registry.quarks["none"])
         == if name == "none" then []
            else match fm.stringAttribute(file, registry.quarks[name])
              case None => []
              case Some(text) => [text]
  {
    SameQuarkIffSameString(registry, name, "none");
  }

  /** The values of the tokens, in token order. */
  function AttributeValues(fm: FileModel, file: File, tokens: seq<Quark>, noneQuark: Quark): (values: seq<string>)
    ensures |values| <= |tokens|
  {
    if tokens == [] then []
    else TokenValue(fm, file, tokens[0], noneQuark) + AttributeValues(fm, file, tokens[1..], noneQuark)
  }

  /** Collecting is compositional: the values of a concatenation are the
      values of each part, in order. */
  lemma {:induction false} AttributeValuesAppend(fm: FileModel, file: File, t1: seq<Quark>, t2: seq<Quark>, noneQuark: Quark)
    ensures AttributeValues(fm, file, t1 + t2, noneQuark)
         == AttributeValues(fm, file, t1, noneQuark) + AttributeValues(fm, file, t2, noneQuark)
  {
    if t1 != [] {
      assert (t1 + t2)[0] == t1[0];
      assert (t1 + t2)[1..] == t1[1..] + t2;
      AttributeValuesAppend(fm, file, t1[1..], t2, noneQuark);
    } else {
      assert t1 + t2 == t2;
    }
  }

  /** A string is among the values exactly when some token other than
      "none" has it as its attribute value. */
  lemma {:induction false} AttributeValuesMembers(fm: FileModel, file: File, tokens: seq<Quark>, noneQuark: Quark, v: string)
    ensures v in AttributeValues(fm, file, tokens, noneQuark)
        <==> exists i :: 0 <= i < |tokens| && tokens[i] != noneQuark && fm.stringAttribute(file, tokens[i]) == Some(v)
  {
    if tokens != [] {
      AttributeValuesMembers(fm, file, tokens[1..], noneQuark, v);
      if v in AttributeValues(fm, file, tokens[1..], noneQuark) {
        var i :| 0 <= i < |tokens[1..]| && tokens[1..][i] != noneQuark && fm.stringAttribute(file, tokens[1..][i]) == Some(v);
        assert tokens[i + 1] == tokens[1..][i];
      }
      if exists i :: 0 <= i < |tokens| && tokens[i] != noneQuark && fm.stringAttribute(file, tokens[i]) == Some(v) {
        var i :| 0 <= i < |tokens| && tokens[i] != noneQuark && fm.stringAttribute(file, tokens[i]) == Some(v);
        if i > 0 {
          assert tokens[1..][i - 1] == tokens[i];
        }
      }
    }
  }

  // The two texts of an icon

  /** The editable text: absent at the smallest zoom level unless invisible
      text is asked for, the display name otherwise. */
  function EditableText(fm: FileModel, file: File, zoom: ZoomLevel, includeInvisible: bool): (t: Option<string>)
    ensures t.None? <==> zoom == Smallest && !includeInvisible
    ensures t.Some? ==> t.value == fm.displayName(file)
  {
    if zoom == Smallest && !includeInvisible then None else Some(fm.displayName(file))
  }

  /** The secondary text made of collected values: absent with none, the
      value itself with one, the lines joined with more. */
  function ComposeSecondary(values: seq<string>): (t: Option<string>)
    ensures t.None? <==> values == []
    ensures |values| == 1 ==> t == Some(values[0])
    ensures values != [] ==> t == Some(JoinLines(values))
  {
    if |values| == 0 then None
    else if |values| == 1 then
      JoinLinesSingle(values[0]);
      Some(values[0])
    else Some(JoinLines(values))
  }

  /** The secondary text: none for desktop icons and link files, otherwise
      composed from the values of the caption tokens. */
  function SecondaryText(fm: FileModel, file: File, tokens: seq<Quark>, noneQuark: Quark): (t: Option<string>)
    ensures fm.isDesktopIconFile(file) || fm.isNautilusLink(file) ==> t.None?
  {
    if fm.isDesktopIconFile(file) || fm.isNautilusLink(file) then None
    else ComposeSecondary(AttributeValues(fm, file, tokens, noneQuark))
  }

  /** When the values have no newline of their own, the lines of the
      secondary text are exactly the collected values, so there are never
      more lines than tokens. */
  lemma SecondaryTextLines(fm: FileModel, file: File, tokens: seq<Quark>, noneQuark: Quark)
    requires forall i :: 0 <= i < |tokens| && tokens[i] != noneQuark ==>
                           match fm.stringAttribute(file, tokens[i])
                           case None => true
                           case Some(text) => OneLine(text)
    requires SecondaryText(fm, file, tokens, noneQuark).Some?
    ensures SplitLines(SecondaryText(fm, file, tokens, noneQuark).value) == AttributeValues(fm, file, tokens, noneQuark)
    ensures |SplitLines(SecondaryText(fm, file, tokens, noneQuark).value)| <= |tokens|
  {
    var values := AttributeValues(fm, file, tokens, noneQuark);
    forall k | 0 <= k < |values|
      ensures OneLine(values[k])
    {
      AttributeValuesMembers(fm, file, tokens, noneQuark, values[k]);
      var i :| 0 <= i < |tokens| && tokens[i] != noneQuark && fm.stringAttribute(file, tokens[i]) == Some(values[k]);
    }
    SplitJoinLines(values);
  }

  /** The strings of a NULL-terminated string array, up to the first NULL. */
  function Strv(a: seq<Option<string>>): seq<string>
  {
    if a == [] || a[0].None? then [] else [a[0].value] + Strv(a[1..])
  }

  lemma {:induction false} StrvOfTerminated(a: seq<Option<string>>, values: seq<string>)
    requires |values| < |a| && a[|values|].None?
    requires forall k :: 0 <= k < |values| ==> a[k] == Some(values[k])
    ensures Strv(a) == values
  {
    if values != [] {
      StrvOfTerminated(a[1..], values[1..]);
    }
  }

  /** get_icon_text: the editable text, and, when the caller passed a slot
      for it, the secondary text of the caption tokens for `zoom` taken from
      the preference vector `attributes`. At most MaxCaptionItems values
      are collected, so the four-slot array always has room for them and
      the NULL after them. */
  method GetIconText(fm: FileModel, file: File, zoom: ZoomLevel, attributes: array<Quark>, noneQuark: Quark,
                     wantAdditional: bool, includeInvisible: bool)
    returns (editable: Option<string>, additional: TextSlot)
    requires Terminated(attributes[..])
    ensures editable == EditableText(fm, file, zoom, includeInvisible)
    ensures !wantAdditional ==> additional == NoSlot
    ensures wantAdditional ==> additional == Filled(SecondaryText(fm, file, CaptionTokens(zoom, attributes[..]), noneQuark))
  {
    if zoom == Smallest && !includeInvisible {
      editable := None;
    } else {
      editable := Some(fm.displayName(file));
    }

    if !wantAdditional {
      additional := NoSlot;
      return;
    }

    if fm.isDesktopIconFile(file) || fm.isNautilusLink(file) {
      additional := Filled(None);
      return;
    }

    var numAttributes := GetIconTextAttributeNames(zoom, attributes);
    var textArray := new Option<string>[4];
    var i, j := 0, 0;
    ghost var collected: seq<string> := [];
    while i < numAttributes
      invariant 0 <= j <= i <= numAttributes
      invariant collected == AttributeValues(fm, file, attributes[..i], noneQuark)
      invariant j == |collected|
      invariant forall k :: 0 <= k < j ==> textArray[k] == Some(collected[k])
    {
      assert attributes[..i + 1] == attributes[..i] + [attributes[i]];
      AttributeValuesAppend(fm, file, attributes[..i], [attributes[i]], noneQuark);
      collected := collected + TokenValue(fm, file, attributes[i], noneQuark);
      if attributes[i] != noneQuark {
        var text := fm.stringAttribute(file, attributes[i]);
        if text.Some? {
          textArray[j] := text;
          j := j + 1;
        }
      }
      i := i + 1;
    }
    textArray[j] := None;
    assert attributes[..i] == CaptionTokens(zoom, attributes[..]);

    if j == 0 {
      additional := Filled(None);
    } else if j == 1 {
      additional := Filled(textArray[0]);
    } else {
      StrvOfTerminated(textArray[..], collected);
      additional := Filled(Some(JoinLines(Strv(textArray[..]))));
    }
  }

  /** get_icon_description: no description for desktop icons, otherwise the
      description of the file's MIME type given by `describeContentType`. */
  function GetIconDescription(fm: FileModel, file: File, describeContentType: string -> string): (d: Option<string>)
    ensures d.None? <==> fm.isDesktopIconFile(file)
    ensures d.Some? ==> d.value == describeContentType(fm.mimeType(file))
  {
    if fm.isDesktopIconFile(file) then None else Some(describeContentType(fm.mimeType(file)))
  }
}
