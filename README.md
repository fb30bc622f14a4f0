# Nautilus canvas view container: icon labels, icon requests and desktop ordering

This project models the presentation and ordering policy of Nautilus's canvas
(icon) view container, `NautilusCanvasViewContainer`, in Dafny, and proves
properties of that model:

- **Caption attributes** (`Quarks`, `Captions`). The caption preference is a
  list of strings. It is interned into a zero-terminated quark vector
  (`update_auto_strv_as_quarks`, `quarkv_length`). The vector is then cut to
  the number of captions allowed at the zoom level, from the table
  {0,0,0,1,2,2,3} (`get_icon_text_attribute_names`).
- **Icon labels** (`IconText`). These are the editable name and the secondary
  text (`get_icon_text`). The secondary text comes from a loop. The loop
  collects the values of the caption tokens into a four-slot array and joins
  them with "\n". The module also covers the tooltip description
  (`get_icon_description`).
- **Desktop ordering** (`Sorting`). Each file falls into one of five desktop
  categories (`get_sort_category`). The desktop order sorts by category, then
  by name. The container picks between the desktop order and the view's order
  (`compare_icons`, `set_sort_desktop`). There is also a name-only order
  (`compare_icons_by_name`).
- **Icon requests** (`IconImages`). This covers the icon flags, the emblem
  composite and the re-lookup (`get_icon_images`). It also covers the
  attributes that a top-left-text monitor asks for.

The component borrows facts about files from the file model. That model is
not part of this component. Here it is the record `Files.FileModel` of
uninterpreted functions over an opaque `Files.File` handle:

- the display name;
- the string value of an attribute, or none;
- whether the file is a desktop icon and whether it is a link file;
- the desktop link type;
- `nautilus_file_compare_for_sort`;
- the top-left text peek;
- the open-window check;
- the emblem icons;
- the MIME type.

Other inputs become parameters:

- the container's zoom level;
- the string list read from the settings store;
- the content-type description;
- the view's own comparator.

`g_quark_from_string` is process-wide mutable state, so it is modelled as the
class `Quarks.QuarkRegistry`.

Only absent (NULL) attribute values are skipped
(src/nautilus-canvas-view-container.c:375-379); an empty string value is kept
as an empty line.

## Model

| member | source | states |
|---|---|---|
| `Quarks.TerminatorIndex` | src/nautilus-canvas-view-container.c:271-280 | the length of a quark vector is the position of its first 0; every quark before it is non-null |
| `Quarks.TerminatorIndexOfConverted` | src/nautilus-canvas-view-container.c:213-218 | n non-null quarks followed by the 0 terminator have length exactly n |
| `Quarks.QuarkRegistry.FromString` | src/nautilus-canvas-view-container.c:216 | interning returns a non-null quark; it returns the same quark for a string seen before; a new string gets a quark not yet used; the table keeps distinct strings on distinct quarks |
| `Quarks.SameQuarkIffSameString` | src/nautilus-canvas-view-container.c:372-374 | a token equals the quark of "none" exactly when its string is "none" |
| `Quarks.UpdateAutoStrvAsQuarks` | src/nautilus-canvas-view-container.c:201-221 | n preference strings give a fresh vector of n+1 slots; slot i holds the quark of string i; slot n holds 0; quarkv_length of the vector is n; quarks interned earlier keep their values, and the only strings newly interned are the list's own |
| `Quarks.QuarkvLength` | src/nautilus-canvas-view-container.c:271-280 | the while-loop returns the index of the first 0 of the vector |
| `Captions.ZoomIndex` | src/nautilus-canvas-view-container.c:298-306 | each of the seven zoom levels indexes the table |
| `Captions.PieceCount` | src/nautilus-canvas-view-container.c:298-308 | the allowance is at most 3 (ICON_TEXT_ATTRIBUTES_NUM_ITEMS); it is 0 exactly at the three smallest levels; it is 3 at the largest |
| `Captions.PieceCountMonotonic` | src/nautilus-canvas-view-container.c:298-306 | a larger zoom level never allows fewer captions |
| `Captions.CaptionTokens` | src/nautilus-canvas-view-container.c:308-312 | the tokens shown are a prefix of the preference vector; the prefix has min(table[zoom], quarkv_length) entries, at most 3, none of them the terminator |
| `Captions.CaptionTokensOfPreference` | src/nautilus-canvas-view-container.c:308-312 | for a converted preference list, the tokens shown are the list's first min(table[zoom], n) entries, in preference order |
| `Captions.GetIconTextAttributeNames` | src/nautilus-canvas-view-container.c:291-315 | the returned count is min(table[zoom], quarkv_length) and never exceeds 3 |
| `IconText.SplitJoinLines` | src/nautilus-canvas-view-container.c:390 | newline-free parts joined with "\n" split back into exactly those parts |
| `IconText.JoinLinesSingle` | src/nautilus-canvas-view-container.c:386-388 | handing back the only value without a join gives the same text as joining it |
| `IconText.TokenValueOfPreference` | src/nautilus-canvas-view-container.c:372-379 | with the "none" quark from the registry that interned the preference (as class_init does at line 539), a token is skipped as "none" exactly when its string was "none"; any other token contributes its non-NULL attribute value |
| `IconText.AttributeValues` | src/nautilus-canvas-view-container.c:369-380 | no more values are collected than there are tokens |
| `IconText.AttributeValuesAppend` | src/nautilus-canvas-view-container.c:369-380 | collection keeps token order: the values of t1+t2 are the values of t1 followed by those of t2 |
| `IconText.AttributeValuesMembers` | src/nautilus-canvas-view-container.c:370-379 | a string is collected exactly when some token other than "none" has it as a non-NULL value |
| `IconText.EditableText` | src/nautilus-canvas-view-container.c:343-350 | the editable text is absent exactly at the smallest zoom without include_invisible; otherwise it is the display name |
| `IconText.ComposeSecondary` | src/nautilus-canvas-view-container.c:383-395 | zero values give no text; one value gives that value unchanged; any non-zero number of values gives their "\n" join |
| `IconText.SecondaryText` | src/nautilus-canvas-view-container.c:356-362 | desktop-icon files and link files never get secondary text, whatever the tokens |
| `IconText.SecondaryTextLines` | src/nautilus-canvas-view-container.c:369-395 | when the values of the tokens other than "none" are newline-free, the lines of the secondary text are exactly the collected values in order, and there are no more lines than tokens |
| `IconText.StrvOfTerminated` | src/nautilus-canvas-view-container.c:379-390 | reading the array up to its NULL gives back the j collected values |
| `IconText.GetIconText` | src/nautilus-canvas-view-container.c:320-396 | returns the editable text described above. With no additional slot, nothing more is written. Otherwise the slot receives the secondary text of the zoom level's caption tokens. The counter j stays within the four-slot array, terminator included |
| `IconText.GetIconDescription` | src/nautilus-canvas-view-container.c:128-147 | no description exactly for desktop icons; otherwise the description of the file's MIME type |
| `Sorting.RankInjective` | src/nautilus-canvas-view-container.c:398-411 | the five categories have five distinct ranks (home 0, network 1, mount 2, other 3, trash 4) |
| `Sorting.GetSortCategory` | src/nautilus-canvas-view-container.c:413-446 | a desktop icon with a home, network, mount or trash link gets that category, each case an if-and-only-if; a non-desktop file, a missing link or an unknown type gives "other" |
| `Sorting.DesktopIconsCompare` | src/nautilus-canvas-view-container.c:448-479 | for different categories: -1 exactly when a's rank is lower, +1 otherwise. For equal categories: the name comparison with the given directories-first flag, not reversed |
| `Sorting.CompareIconsByName` | src/nautilus-canvas-view-container.c:502-512 | the name comparison always has directories-first and reversed both FALSE |
| `Sorting.HomePrecedesTrash` | src/nautilus-canvas-view-container.c:398-404 | a home link sorts before a trash link both ways round, whatever their names |
| `Sorting.OrdinaryFilesByName` | src/nautilus-canvas-view-container.c:464-472 | two non-desktop files compare by the name comparison; with directories-first off, this equals the name-only order |
| `Sorting.DesktopCompareAntisymmetric` | src/nautilus-canvas-view-container.c:467-478 | comparing b with a gives the opposite sign to comparing a with b, provided the name comparison does the same |
| `Sorting.DesktopCompareTransitive` | src/nautilus-canvas-view-container.c:467-478 | the "sorts before" relation is transitive, provided the name comparison's is |
| `Sorting.CanvasViewContainer.constructor` | src/nautilus-canvas-view-container.c:562-582 | a new container serves the given view; desktop sorting starts off |
| `Sorting.CanvasViewContainer.SetSortDesktop` | src/nautilus-canvas-view-container.c:584-589 | sets sort_for_desktop; the frame allows no other change |
| `Sorting.CanvasViewContainer.CompareIcons` | src/nautilus-canvas-view-container.c:481-500 | with sort_for_desktop set: the desktop order with the view's directories-first setting. Otherwise: the view's own comparator |
| `Sorting.DesktopSortingClient` | src/nautilus-canvas-view-container.c:481-500 | a caller of set_sort_desktop: with the flag on, comparing a home link with a trash link returns -1; with it off again, the result is the view's own comparator. The view is untouched and the flag ends off |
| `IconImages.IconRequestFlags` | src/nautilus-canvas-view-container.c:85-93 | the flags always include USE_MOUNT_ICON_AS_EMBLEM and USE_THUMBNAILS. EMBEDDING_TEXT is present exactly when top-left text was returned. FOR_DRAG_ACCEPT is present exactly when it was requested |
| `IconImages.IconRequestFlagsInjective` | src/nautilus-canvas-view-container.c:85-93 | the flag set determines both choices that produced it |
| `IconImages.Emblems` | src/nautilus-canvas-view-container.c:102-110 | one emblem per emblem icon, in list order |
| `IconImages.RequestedIcon` | src/nautilus-canvas-view-container.c:95-119 | a re-lookup happens exactly when the emblem list is non-empty, at the same size. The composite is built over the pixbuf of the file's icon and holds every emblem in list order, first one first |
| `IconImages.EmblemedIcon.constructor` | src/nautilus-canvas-view-container.c:102-104 | the composite starts with its base and the first emblem |
| `IconImages.EmblemedIcon.AddEmblem` | src/nautilus-canvas-view-container.c:107-112 | each further emblem is added after those already there |
| `IconImages.GetIconImages` | src/nautilus-canvas-view-container.c:51-126 | the returned icon is RequestedIcon for the composed flags. The embedded-text slot is written only when passed. The open-window flag is the file's |
| `IconImages.TopLeftMonitorAttributes` | src/nautilus-canvas-view-container.c:149-167 | a top-left monitor always asks for TOP_LEFT_TEXT, and for LARGE_TOP_LEFT_TEXT exactly when large text is wanted |

## Left out

- src/nautilus-desktop-window.c: window subclassing, window-type hints, screen-size handlers and accessible names. It has no ordering or labelling logic.
- src/nautilus-view.h, libnautilus-private/nautilus-global-preferences.h and libnautilus-private/nautilus-file-utilities.h: declarations and key names only. They have no bodies to model.
- `get_icon_text_attributes_from_preferences`: the static cache and the settings change subscription are not modelled. The vector it returns is a parameter of `Captions.GetIconTextAttributeNames` and `IconText.GetIconText`. It can be produced by `Quarks.UpdateAutoStrvAsQuarks`.
- `attribute_none_q`: class_init interns "none" once, with `Quarks.QuarkRegistry.FromString`. The model passes that quark in as a parameter. The vtable wiring of class_init is not modelled.
- NULL-view guards (`g_return_val_if_fail` / `g_return_if_fail` on the view): the model's container always holds a view, because construction sets it. The NULL-view early returns are therefore not modelled.
- `nautilus_file_compare_for_sort`, `nautilus_canvas_view_compare_files` and `g_content_type_get_description` are abstract function parameters. Their behaviour is not modelled.
- `Sorting.DesktopCompareAntisymmetric` and `Sorting.DesktopCompareTransitive` hold only under the stated assumptions about the name comparison. That comparison is external, so nothing more can be proved.
- `IconText.SecondaryTextLines` assumes attribute values contain no newline. A value with a newline of its own adds lines of its own.
- Icon lookup, pixbufs, `GEmblem` and `GEmblemedIcon` are value constructors here. GIO's own ordering of the emblems inside an emblemed icon is not modelled, so the composite keeps them in the order they were added.
- `nautilus_file_monitor_add` / `nautilus_file_monitor_remove`: the attribute set requested is modelled, but the registration and its add/remove pairing belong to the file model and are not.
- `prioritize_thumbnailing`, `freeze_updates` and `unfreeze_updates`: pure delegation to the thumbnailer and the view, with nothing to state.
- init/construct style-class and accessibility calls, reference counting and `g_free`: toolkit and memory bookkeeping.
- The zoom level is one of the seven enumeration values. An out-of-range integer index into the table cannot be expressed in the model.
