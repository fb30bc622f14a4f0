/** IconImages: the icon requested for a file, its emblem overlay, and the
    attributes watched for its top-left text. */
module IconImages {
  import opened Files

  /** The NautilusFileIconFlags this container can ask for. */
  datatype IconFlag = UseMountIconAsEmblem | UseThumbnails | EmbeddingText | ForDragAccept

  /** A GEmblem made from one of the file's emblem icons. */
  datatype Emblem = Emblem(icon: IconRef)

  /** A GIcon: the pixbuf of an icon info, or a GEmblemedIcon over a base
      icon with its emblems in the order they were added. */
  datatype GIcon = PixbufIcon(info: IconInfo) | EmblemedGIcon(base: GIcon, emblems: seq<Emblem>)

  /** A NautilusIconInfo: what nautilus_file_get_icon returns for a file at
      a size and flag set, or what nautilus_icon_info_lookup returns for a
      GIcon at a size. */
  datatype IconInfo = FileIcon(file: File, size: int, flags: set<IconFlag>) | LookedUp(icon: GIcon, size: int)

  /** An optional embedded-text out-parameter with what the top-left text
      peek wrote: NULL slot, or the text and its needs-loading flag. */
  datatype EmbeddedTextSlot = NotRequested | Peeked(text: Option<string>, needsLoading: bool)

  /** The flags of an icon request: always the mount-icon emblem and
      thumbnails, embedded text exactly when there is text to embed, and
      drag-accept styling exactly when asked for. */
  function IconRequestFlags(useEmbedding: bool, forDragAccept: bool): (flags: set<IconFlag>)
    ensures UseMountIconAsEmblem in flags && UseThumbnails in flags
    ensures EmbeddingText in flags <==> useEmbedding
    ensures ForDragAccept in flags <==> forDragAccept
  {
    {UseMountIconAsEmblem, UseThumbnails}
      + (if useEmbedding then {EmbeddingText} else {})
      + (if forDragAccept then {ForDragAccept} else {})
  }

  /** Different requests yield different flag sets: the flags record both choices. */
  lemma IconRequestFlagsInjective(e1: bool, d1: bool, e2: bool, d2: bool)
    requires IconRequestFlags(e1, d1) == IconRequestFlags(e2, d2)
    ensures e1 == e2 && d1 == d2
  {
  }

  /** The emblems made from a list of icons, one per icon, in list order. */
  function Emblems(icons: seq<IconRef>): (emblems: seq<Emblem>)
    ensures |emblems| == |icons|
    ensures forall i :: 0 <= i < |icons| ==> emblems[i] == Emblem(icons[i])
  {
    seq(|icons|, i requires 0 <= i < |icons| => Emblem(icons[i]))
  }

  /** The icon shown for a file: the file's own icon when it has no emblems;
      otherwise the icon looked up again at the same size for the composite
      of that icon's pixbuf and all the emblems, first one first. */
  function RequestedIcon(fm: FileModel, file: File, size: int, flags: set<IconFlag>): (info: IconInfo)
    ensures info.size == size
    ensures info.LookedUp? <==> fm.emblemIcons(file) != []
    ensures info.FileIcon? ==> info == FileIcon(file, size, flags)
    ensures info.LookedUp? ==>
              && info.icon.EmblemedGIcon?
              && info.icon.base == PixbufIcon(FileIcon(file, size, flags))
              && |info.icon.emblems| == |fm.emblemIcons(file)|
              && forall i :: 0 <= i < |fm.emblemIcons(file)| ==> info.icon.emblems[i] == Emblem(fm.emblemIcons(file)[i])
  {
    var base := FileIcon(file, size, flags);
    if fm.emblemIcons(file) == [] then base
    else LookedUp(EmblemedGIcon(PixbufIcon(base), Emblems(fm.emblemIcons(file))), size)
  }

  /** A GEmblemedIcon under construction: g_emblemed_icon_new sets its base
      and first emblem, g_emblemed_icon_add_emblem appends one more. */
  class EmblemedIcon {
    const base: GIcon
    var emblems: seq<Emblem>

    constructor (base: GIcon, first: Emblem)
      ensures this.base == base && emblems == [first]
    {
      this.base := base;
      emblems := [first];
    }

    method AddEmblem(emblem: Emblem)
      modifies this
      ensures emblems == old(emblems) + [emblem]
    {
      emblems := emblems + [emblem];
    }

    /** The GIcon the object stands for now. */
    function Icon(): (icon: GIcon)
      reads this
      ensures icon.EmblemedGIcon? && icon.base == base && icon.emblems == emblems
    {
      EmblemedGIcon(base, emblems)
    }
  }

  /** get_icon_images: peeks at the top-left text when the caller has a
      slot for it, reports whether a window is open on the file, and returns
      the requested icon with the emblems applied. */
  method GetIconImages(fm: FileModel, file: File, size: int, wantEmbeddedText: bool, forDragAccept: bool,
                       needLargeEmbeddedText: bool)
    returns (info: IconInfo, embeddedText: EmbeddedTextSlot, hasWindowOpen: bool)
    ensures !wantEmbeddedText ==> embeddedText == NotRequested
    ensures wantEmbeddedText ==>
              embeddedText == Peeked(fm.peekTopLeftText(file, needLargeEmbeddedText).0,
                                     fm.peekTopLeftText(file, needLargeEmbeddedText).1)
    ensures hasWindowOpen == fm.hasOpenWindow(file)
    ensures info == RequestedIcon(fm, file, size,
                                  IconRequestFlags(embeddedText.Peeked? && embeddedText.text.Some?, forDragAccept))
  {
    var useEmbedding := false;
    embeddedText := NotRequested;
    if wantEmbeddedText {
      var (text, needsLoading) := fm.peekTopLeftText(file, needLargeEmbeddedText);
      embeddedText := Peeked(text, needsLoading);
      useEmbedding := text.Some?;
    }

    hasWindowOpen := fm.hasOpenWindow(file);

    var flags := IconRequestFlags(useEmbedding, forDragAccept);
    info := FileIcon(file, size, flags);
    var emblemIcons := fm.emblemIcons(file);

    if emblemIcons != [] {
      var pixbuf := PixbufIcon(info);
      var emblemed := new EmblemedIcon(pixbuf, Emblem(emblemIcons[0]));
      var k := 1;
      while k < |emblemIcons|
        invariant 1 <= k <= |emblemIcons|
        invariant emblemed.base == pixbuf
        invariant emblemed.emblems == Emblems(emblemIcons[..k])
      {
        emblemed.AddEmblem(Emblem(emblemIcons[k]));
        k := k + 1;
      }
      assert emblemIcons[..k] == emblemIcons;
      info := LookedUp(emblemed.Icon(), size);
    }
  }

  /** The NautilusFileAttributes a top-left-text monitor asks for. */
  datatype FileAttribute = TopLeftText | LargeTopLeftText

  /** start_monitor_top_left: the top-left text always, and the large
      variant exactly when large text is wanted. */
  function TopLeftMonitorAttributes(largeText: bool): (attributes: set<FileAttribute>)
    ensures TopLeftText in attributes
    ensures LargeTopLeftText in attributes <==> largeText
  {
    if largeText then {TopLeftText, LargeTopLeftText} else {TopLeftText}
  }
}
