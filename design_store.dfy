/**
 * The design store (src/stores/designStore.ts, record types in
 * src/types/theme.ts): which parts of a message bubble are shown and the
 * bubble's CSS dimensions.
 */
module DesignStore {
  import opened Options

  datatype BubbleStyle = BubbleStyle(borderRadius: string, padding: string, maxWidth: string, fontSize: string)

  /** `Partial<BubbleStyle>`. */
  datatype BubbleStylePatch = BubbleStylePatch(
    borderRadius: Option<string>, padding: Option<string>, maxWidth: Option<string>, fontSize: Option<string>)

  datatype DesignOptions = DesignOptions(
    showAvatar: bool,
    showTimestamp: bool,
    showSenderName: bool,
    showStatus: bool,
    bubbleStyle: BubbleStyle)

  const DEFAULT_BUBBLE_STYLE: BubbleStyle := BubbleStyle("16px", "12px 16px", "70%", "16px")

  /** Everything shown, with the default bubble. */
  const DEFAULT_DESIGN_OPTIONS: DesignOptions := DesignOptions(true, true, true, true, DEFAULT_BUBBLE_STYLE)

  /** `{ ...style, ...patch }`. */
  function MergeStyle(style: BubbleStyle, patch: BubbleStylePatch): BubbleStyle {
    BubbleStyle(
      Override(style.borderRadius, patch.borderRadius),
      Override(style.padding, patch.padding),
      Override(style.maxWidth, patch.maxWidth),
      Override(style.fontSize, patch.fontSize))
  }

  /** The later of two patches wins key by key. */
  function ThenPatch(first: BubbleStylePatch, second: BubbleStylePatch): BubbleStylePatch {
    BubbleStylePatch(
      if second.borderRadius.Some? then second.borderRadius else first.borderRadius,
      if second.padding.Some? then second.padding else first.padding,
      if second.maxWidth.Some? then second.maxWidth else first.maxWidth,
      if second.fontSize.Some? then second.fontSize else first.fontSize)
  }

  /**
   * Merging keeps the keys the patch leaves out, merging the same patch twice
   * is merging it once, and two merges in a row are one merge of the combined patch.
   */
  lemma MergeStyleLaws(style: BubbleStyle, p: BubbleStylePatch, q: BubbleStylePatch)
    ensures p.borderRadius.None? ==> MergeStyle(style, p).borderRadius == style.borderRadius
    ensures p.padding.None? ==> MergeStyle(style, p).padding == style.padding
    ensures p.maxWidth.None? ==> MergeStyle(style, p).maxWidth == style.maxWidth
    ensures p.fontSize.None? ==> MergeStyle(style, p).fontSize == style.fontSize
    ensures MergeStyle(MergeStyle(style, p), p) == MergeStyle(style, p)
    ensures MergeStyle(MergeStyle(style, p), q) == MergeStyle(style, ThenPatch(p, q))
  {
  }

  class DesignState {
    var options: DesignOptions

    constructor ()
      ensures options == DEFAULT_DESIGN_OPTIONS
    {
      options := DEFAULT_DESIGN_OPTIONS;
    }

    method SetShowAvatar(show: bool)
      modifies this
      ensures options == old(options).(showAvatar := show)
    {
      options := options.(showAvatar := show);
    }

    method SetShowTimestamp(show: bool)
      modifies this
      ensures options == old(options).(showTimestamp := show)
    {
      options := options.(showTimestamp := show);
    }

    method SetShowSenderName(show: bool)
      modifies this
      ensures options == old(options).(showSenderName := show)
    {
      options := options.(showSenderName := show);
    }

    method SetShowStatus(show: bool)
      modifies this
      ensures options == old(options).(showStatus := show)
    {
      options := options.(showStatus := show);
    }

    /** Merges the given keys into the bubble style; the flags and the other keys are kept. */
    method SetBubbleStyle(style: BubbleStylePatch)
      modifies this
      ensures options == old(options).(bubbleStyle := MergeStyle(old(options).bubbleStyle, style))
    {
      options := options.(bubbleStyle := MergeStyle(options.bubbleStyle, style));
    }

    method ResetDesign()
      modifies this
      ensures options == DEFAULT_DESIGN_OPTIONS
    {
      options := DEFAULT_DESIGN_OPTIONS;
    }
  }
}
