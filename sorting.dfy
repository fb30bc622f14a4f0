/** Sorting: the order of icons in the canvas view, with the fixed category
    order used on the desktop surface. */
module Sorting {
  import opened Files

  /** Desktop sort categories, in their order on the desktop. */
  datatype SortCategory = SortHomeLink | SortNetworkLink | SortMountLink | SortOther | SortTrashLink

  /** The position of a category in the desktop order. */
  function Rank(c: SortCategory): nat
  {
    match c
    case SortHomeLink => 0
    case SortNetworkLink => 1
    case SortMountLink => 2
    case SortOther => 3
    case SortTrashLink => 4
  }

  /** Distinct categories have distinct ranks, so ranks order categories strictly. */
  lemma RankInjective(c: SortCategory, d: SortCategory)
    ensures Rank(c) == Rank(d) <==> c == d
  {
  }

  /** get_sort_category: a desktop icon whose link is of a known type takes
      that link's category; every other file is in SortOther. */
  function GetSortCategory(fm: FileModel, file: File): (c: SortCategory)
    ensures !fm.isDesktopIconFile(file) || fm.desktopLink(file).None? ==> c == SortOther
    ensures c == SortOther <==>
              (!fm.isDesktopIconFile(file) || fm.desktopLink(file).None? || fm.desktopLink(file).value.UnknownLinkType?)
    ensures c == SortHomeLink <==> fm.isDesktopIconFile(file) && fm.desktopLink(file) == Some(HomeLink)
    ensures c == SortTrashLink <==> fm.isDesktopIconFile(file) && fm.desktopLink(file) == Some(TrashLink)
    ensures c == SortMountLink <==> fm.isDesktopIconFile(file) && fm.desktopLink(file) == Some(MountLink)
    ensures c == SortNetworkLink <==> fm.isDesktopIconFile(file) && fm.desktopLink(file) == Some(NetworkLink)
  {
    if fm.isDesktopIconFile(file) then
      match fm.desktopLink(file)
      case None => SortOther
      case Some(HomeLink) => SortHomeLink
      case Some(MountLink) => SortMountLink
      case Some(TrashLink) => SortTrashLink
      case Some(NetworkLink) => SortNetworkLink
      case Some(UnknownLinkType(_)) => SortOther
    else SortOther
  }

  function Sign(x: int): int
  {
    if x < 0 then -1 else if x > 0 then 1 else 0
  }

  /** fm_desktop_canvas_container_icons_compare: by category first, then by
      display name honouring `directoriesFirst`, never reversed. */
  function DesktopIconsCompare(fm: FileModel, a: File, b: File, directoriesFirst: bool): (r: int)
    ensures GetSortCategory(fm, a) != GetSortCategory(fm, b) ==>
              (r == -1 || r == 1) && (r == -1 <==> Rank(GetSortCategory(fm, a)) < Rank(GetSortCategory(fm, b)))
    ensures GetSortCategory(fm, a) == GetSortCategory(fm, b) ==> r == fm.compareForSort(a, b, directoriesFirst, false)
  {
    var categoryA := GetSortCategory(fm, a);
    var categoryB := GetSortCategory(fm, b);
    if categoryA == categoryB then fm.compareForSort(a, b, directoriesFirst, false)
    else if Rank(categoryA) < Rank(categoryB) then -1
    else 1
  }

  /** compare_icons_by_name: display-name order with neither
      directories-first nor reversal, whatever the view's settings. */
  function CompareIconsByName(fm: FileModel, a: File, b: File): (r: int)
    ensures r == fm.compareForSort(a, b, false, false)
  {
    fm.compareForSort(a, b, false, false)
  }

  /** The name comparison with a given directories-first flag is antisymmetric. */
  ghost predicate NameCompareAntisymmetric(fm: FileModel, directoriesFirst: bool)
  {
    forall a: File, b: File ::
      Sign(fm.compareForSort(a, b, directoriesFirst, false)) == -Sign(fm.compareForSort(b, a, directoriesFirst, false))
  }

  /** The name comparison with a given directories-first flag is transitive. */
  ghost predicate NameCompareTransitive(fm: FileModel, directoriesFirst: bool)
  {
    forall a: File, b: File, c: File ::
      fm.compareForSort(a, b, directoriesFirst, false) < 0 && fm.compareForSort(b, c, directoriesFirst, false) < 0
      ==> fm.compareForSort(a, c, directoriesFirst, false) < 0
  }

  /** A home link precedes a trash link on the desktop, whatever their names. */
  lemma HomePrecedesTrash(fm: FileModel, home: File, trash: File, directoriesFirst: bool)
    requires fm.isDesktopIconFile(home) && fm.desktopLink(home) == Some(HomeLink)
    requires fm.isDesktopIconFile(trash) && fm.desktopLink(trash) == Some(TrashLink)
    ensures DesktopIconsCompare(fm, home, trash, directoriesFirst) == -1
    ensures DesktopIconsCompare(fm, trash, home, directoriesFirst) == 1
  {
  }

  /** Ordinary files are all SortOther, so among them the desktop order is the
      plain display-name order. */
  lemma OrdinaryFilesByName(fm: FileModel, a: File, b: File, directoriesFirst: bool)
    requires !fm.isDesktopIconFile(a) && !fm.isDesktopIconFile(b)
    ensures DesktopIconsCompare(fm, a, b, directoriesFirst) == fm.compareForSort(a, b, directoriesFirst, false)
    ensures !directoriesFirst ==> DesktopIconsCompare(fm, a, b, directoriesFirst) == CompareIconsByName(fm, a, b)
  {
  }

  /** The desktop order is antisymmetric when the name order is. */
  lemma DesktopCompareAntisymmetric(fm: FileModel, a: File, b: File, directoriesFirst: bool)
    requires NameCompareAntisymmetric(fm, directoriesFirst)
    ensures Sign(DesktopIconsCompare(fm, a, b, directoriesFirst)) == -Sign(DesktopIconsCompare(fm, b, a, directoriesFirst))
  {
  }

  /** The desktop order is transitive when the name order is. */
  lemma DesktopCompareTransitive(fm: FileModel, a: File, b: File, c: File, directoriesFirst: bool)
    requires NameCompareTransitive(fm, directoriesFirst)
    requires DesktopIconsCompare(fm, a, b, directoriesFirst) < 0
    requires DesktopIconsCompare(fm, b, c, directoriesFirst) < 0
    ensures DesktopIconsCompare(fm, a, c, directoriesFirst) < 0
  {
  }

  /** The canvas view that owns the container: its directories-first
      setting and its own per-file comparator (nautilus_canvas_view_compare_files). */
  datatype CanvasView = CanvasView(sortDirectoriesFirst: bool, compareFiles: (File, File) -> int)

  /** NautilusCanvasViewContainer: the view it serves and whether it sorts
      as the desktop does. */
  class CanvasViewContainer {
    var view: CanvasView
    var sortForDesktop: bool

    /** nautilus_canvas_view_container_new: a container for `view`; the
        desktop flag starts cleared, as every new object's fields do. */
    constructor (view: CanvasView)
      ensures this.view == view && !sortForDesktop
    {
      this.view := view;
      sortForDesktop := false;
    }

    /** nautilus_canvas_view_container_set_sort_desktop: sets the desktop
        flag and nothing else. */
    method SetSortDesktop(desktop: bool)
      modifies this`sortForDesktop
      ensures sortForDesktop == desktop
    {
      sortForDesktop := desktop;
    }

    /** compare_icons: the desktop order, with the view's directories-first
        setting, exactly when the container sorts for the desktop; the view's
        own comparator otherwise. */
    function CompareIcons(fm: FileModel, a: File, b: File): (r: int)
      reads this
      ensures sortForDesktop ==> r == DesktopIconsCompare(fm, a, b, view.sortDirectoriesFirst)
      ensures !sortForDesktop ==> r == view.compareFiles(a, b)
    {
      if sortForDesktop then DesktopIconsCompare(fm, a, b, view.sortDirectoriesFirst)
      else view.compareFiles(a, b)
    }
  }

  /** A caller of set_sort_desktop: with desktop sorting switched on, a home
      link sorts before a trash link; once it is switched off again, the
      view's own comparator decides. */
  method DesktopSortingClient(fm: FileModel, container: CanvasViewContainer, home: File, trash: File)
    returns (onDesktop: int, offDesktop: int)
    requires fm.isDesktopIconFile(home) && fm.desktopLink(home) == Some(HomeLink)
    requires fm.isDesktopIconFile(trash) && fm.desktopLink(trash) == Some(TrashLink)
    modifies container
    ensures onDesktop == -1
    ensures offDesktop == old(container.view).compareFiles(home, trash)
    ensures container.view == old(container.view) && !container.sortForDesktop
  {
    container.SetSortDesktop(true);
    HomePrecedesTrash(fm, home, trash, container.view.sortDirectoriesFirst);
    onDesktop := container.CompareIcons(fm, home, trash);
    container.SetSortDesktop(false);
    offDesktop := container.CompareIcons(fm, home, trash);
  }
}
