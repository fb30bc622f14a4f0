/** Files: the file handles the container borrows and the answers the file
    model gives about them. The file model lives outside this component, so
    each of its queries is an uninterpreted function over an opaque handle. */
module Files {
  import opened Quarks

  datatype Option<+T> = None | Some(value: T)

  /** An opaque reference to a NautilusFile. */
  datatype File = File(handle: nat)

  /** The NautilusDesktopLinkType reported for a desktop link; any other
      value of the enumeration is `UnknownLinkType`. */
  datatype DesktopLinkType = HomeLink | TrashLink | MountLink | NetworkLink | UnknownLinkType(code: int)

  /** An opaque reference to one of the GIcons a file lists as its emblems. */
  datatype IconRef = IconRef(handle: nat)

  /** The queries this component makes of the file model:
      - displayName: nautilus_file_get_display_name
      - stringAttribute: nautilus_file_get_string_attribute_q (None is NULL)
      - isDesktopIconFile: NAUTILUS_IS_DESKTOP_ICON_FILE
      - isNautilusLink: nautilus_file_is_nautilus_link
      - desktopLink: the type of nautilus_desktop_icon_file_get_link (None is NULL)
      - compareForSort: nautilus_file_compare_for_sort by display name, given
        the directories-first and reversed flags
      - peekTopLeftText: nautilus_file_peek_top_left_text, given the large-text
        flag; the text (None is NULL) and the needs-loading flag it reports
      - hasOpenWindow: nautilus_file_has_open_window
      - emblemIcons: nautilus_file_get_emblem_icons, in list order
      - mimeType: nautilus_file_get_mime_type */
  datatype FileModel = FileModel(
    displayName: File -> string,
    stringAttribute: (File, Quark) -> Option<string>,
    isDesktopIconFile: File -> bool,
    isNautilusLink: File -> bool,
    desktopLink: File -> Option<DesktopLinkType>,
    compareForSort: (File, File, bool, bool) -> int,
    peekTopLeftText: (File, bool) -> (Option<string>, bool),
    hasOpenWindow: File -> bool,
    emblemIcons: File -> seq<IconRef>,
    mimeType: File -> string)
}
