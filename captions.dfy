/** Captions: how many and which attribute tokens are shown beneath an icon
    at a given zoom level. */
module Captions {
  import opened Quarks

  /** The seven NautilusZoomLevel values, smallest first. */
  datatype ZoomLevel = Smallest | Smaller | Small | Standard | Large | Larger | Largest

  /** The position of a zoom level in the enumeration. */
  function ZoomIndex(zoom: ZoomLevel): (i: nat)
    ensures i < |PiecesByLevel|
  {
    match zoom
    case Smallest => 0
    case Smaller => 1
    case Small => 2
    case Standard => 3
    case Large => 4
    case Larger => 5
    case Largest => 6
  }

  /** ICON_TEXT_ATTRIBUTES_NUM_ITEMS: the most captions an icon can show. */
  const MaxCaptionItems: nat := 3

  /** The number of caption lines allowed at each zoom level, by ZoomIndex. */
  const PiecesByLevel: seq<nat> := [0, 0, 0, 1, 2, 2, 3]

  /** The caption allowance of a zoom level: none below the standard level,
      never more than MaxCaptionItems, and never less at a larger level. */
  function PieceCount(zoom: ZoomLevel): (n: nat)
    ensures n <= MaxCaptionItems
    ensures n == 0 <==> zoom in {Smallest, Smaller, Small}
    ensures zoom == Largest ==> n == MaxCaptionItems
  {
    PiecesByLevel[ZoomIndex(zoom)]
  }

  /** Larger zoom levels never show fewer captions. */
  lemma PieceCountMonotonic(z1: ZoomLevel, z2: ZoomLevel)
    requires ZoomIndex(z1) <= ZoomIndex(z2)
    ensures PieceCount(z1) <= PieceCount(z2)
  {
  }

  function Min(a: int, b: int): int
  {
    if a < b then a else b
  }

  /** The tokens whose values go beneath an icon: the first
      min(PieceCount(zoom), quarkv_length) entries of the preference vector. */
  function CaptionTokens(zoom: ZoomLevel, attributes: seq<Quark>): (tokens: seq<Quark>)
    requires Terminated(attributes)
    ensures |tokens| == Min(PieceCount(zoom), TerminatorIndex(attributes)) <= MaxCaptionItems
    ensures tokens <= attributes
    ensures forall i :: 0 <= i < |tokens| ==> tokens[i] != 0
  {
    attributes[..Min(PieceCount(zoom), TerminatorIndex(attributes))]
  }

  /** For a vector produced from a preference list of non-null quarks, the
      caption tokens are that list truncated to the zoom level's allowance,
      in preference order. */
  lemma CaptionTokensOfPreference(zoom: ZoomLevel, qs: seq<Quark>)
    requires forall i :: 0 <= i < |qs| ==> qs[i] != 0
    ensures Terminated(qs + [0])
    ensures CaptionTokens(zoom, qs + [0]) == qs[..Min(PieceCount(zoom), |qs|)]
  {
    TerminatorIndexOfConverted(qs);
    assert (qs + [0])[..Min(PieceCount(zoom), |qs|)] == qs[..Min(PieceCount(zoom), |qs|)];
  }

  /** get_icon_text_attribute_names: the number of entries of the preference
      vector to show at this zoom level. */
  method GetIconTextAttributeNames(zoom: ZoomLevel, attributes: array<Quark>) returns (len: nat)
    requires Terminated(attributes[..])
    ensures len == Min(PieceCount(zoom), TerminatorIndex(attributes[..]))
    ensures len == |CaptionTokens(zoom, attributes[..])| && len <= MaxCaptionItems
  {
    var pieceCount := PiecesByLevel[ZoomIndex(zoom)];
    var length := QuarkvLength(attributes);
    len := Min(pieceCount, length);
  }
}
