/**
 * The text the share actions hand to the platform: one item as
 * title/content/url, or the whole store as labelled blocks joined by a
 * visible delimiter. Whether the platform share or the clipboard is used is
 * a parameter; the dispatch itself is not modelled.
 */
module Share {
  import opened Wrappers
  import opened Seqs
  import opened Content

  /** JavaScript's `u || fallback` on an optional string: an absent or empty string falls back. */
  function OrElse(u: Option<string>, fallback: string): string {
    if u.Some? && u.value != "" then u.value else fallback
  }

  /** The clipboard text for one item: title, blank line, content, blank line, url. */
  function ItemText(item: ContentItem): string {
    item.title + "\n\n" + item.content + "\n\n" + OrElse(item.url, "")
  }

  /**
   * The single-item text is the title, a blank line, the content, a blank
   * line and then the url when there is one and nothing otherwise; so an item
   * without a url yields text ending in the blank line, never a placeholder.
   */
  lemma ItemTextLayout(item: ContentItem)
    ensures ItemText(item) == item.title + "\n\n" + item.content + "\n\n" + item.url.GetOr("")
    ensures item.url == None ==>
      |ItemText(item)| == |item.title| + |item.content| + 4 &&
      ItemText(item)[|ItemText(item)| - 2..] == "\n\n"
  {
  }

  /** The delimiter between the blocks of the whole-store text. */
  const Separator: string := "\n---\n\n"

  /** One item's block: `Label: title`, the content, and the comma-joined tags, each line ended. */
  function Block(item: ContentItem): (r: string)
    ensures |r| > |Label(item.kind)| + 2
    ensures r[..|Label(item.kind)| + 2] == Label(item.kind) + ": "
    ensures r[|r| - 1] == '\n'
  {
    Label(item.kind) + ": " + item.title + "\n" + item.content + "\nTags: " + Join(item.tags, ", ") + "\n"
  }

  /** `content.map(block)`: one block per item, in store order. */
  function Blocks(s: seq<ContentItem>): (r: seq<string>)
    ensures |r| == |s|
  {
    if s == [] then [] else [Block(s[0])] + Blocks(s[1..])
  }

  /** Block `i` of the list is the block of item `i`. */
  lemma {:induction false} BlocksAt(s: seq<ContentItem>, i: nat)
    requires i < |s|
    ensures Blocks(s)[i] == Block(s[i])
    decreases i
  {
    if i > 0 {
      BlocksAt(s[1..], i - 1);
    }
  }

  /** The whole-store text: the item blocks joined by the separator. */
  function BrainText(s: seq<ContentItem>): string {
    Join(Blocks(s), Separator)
  }

  /** The whole-store text is empty exactly when the store is. */
  lemma BrainTextEmpty(s: seq<ContentItem>)
    ensures BrainText(s) == "" <==> s == []
  {
    if s != [] {
      BlocksAt(s, 0);
      JoinLayout(Blocks(s), Separator, 0);
      assert |Blocks(s)[0]| > 0;
    }
  }

  /**
   * For a non-empty store the text is laid out as block 0, separator,
   * block 1, ..., separator, block n-1: block `i` sits at its offset and is
   * followed by exactly one separator, or ends the text if it is the last.
   */
  lemma BrainTextLayout(s: seq<ContentItem>, i: nat)
    requires i < |s|
    ensures PlacedAt(Blocks(s), Separator, BrainText(s), i)
  {
    JoinLayout(Blocks(s), Separator, i);
  }

  /** A store of `n >= 1` items is shared as its blocks plus `n - 1` separators. */
  lemma BrainTextLength(s: seq<ContentItem>)
    requires s != []
    ensures |BrainText(s)| == TotalLength(Blocks(s)) + (|s| - 1) * |Separator|
  {
    JoinLength(Blocks(s), Separator);
  }

  /** A one-item store is shared as that item's block, with no separator. */
  lemma BrainTextSingle(x: ContentItem)
    ensures BrainText([x]) == Block(x)
  {
    BlocksAt([x], 0);
    assert Blocks([x]) == [Block(x)];
  }

  /** Adding an item to a non-empty store adds one separator and its block. */
  lemma BrainTextSnoc(s: seq<ContentItem>, x: ContentItem)
    requires s != []
    ensures BrainText(s + [x]) == BrainText(s) + Separator + Block(x)
  {
    forall i | 0 <= i <= |s| ensures Blocks(s + [x])[i] == (Blocks(s) + [Block(x)])[i] {
      BlocksAt(s + [x], i);
      if i < |s| {
        BlocksAt(s, i);
      }
    }
    assert Blocks(s + [x]) == Blocks(s) + [Block(x)];
    JoinSnoc(Blocks(s), Block(x), Separator);
  }

  /** What a share action hands to the platform. */
  datatype ShareAction =
    | NativeShare(title: string, text: string, url: Option<string>)
    | CopyToClipboard(text: string, notice: string)

  /**
   * Sharing one item: the native share gets the title, the content and the
   * item's url (the page's own address when the item has none); otherwise
   * the single-item text is copied and a notice is shown.
   */
  function HandleShare(item: ContentItem, canShare: bool, pageUrl: string): (a: ShareAction)
    ensures a.NativeShare? <==> canShare
    ensures a.NativeShare? ==>
      a.title == item.title && a.text == item.content &&
      a.url == Some(if item.url.Some? && item.url.value != "" then item.url.value else pageUrl)
    ensures a.CopyToClipboard? ==> a.text == item.title + "\n\n" + item.content + "\n\n" + item.url.GetOr("")
  {
    if canShare then NativeShare(item.title, item.content, Some(OrElse(item.url, pageUrl)))
    else CopyToClipboard(ItemText(item), "Content copied to clipboard!")
  }

  /** Sharing the whole store: both routes carry the same whole-store text. */
  function HandleShareBrain(s: seq<ContentItem>, canShare: bool): (a: ShareAction)
    ensures a.NativeShare? <==> canShare
    ensures a.text == BrainText(s)
    ensures a.NativeShare? ==> a.title == "My Second Brain" && a.url == None
  {
    var text := BrainText(s);
    if canShare then NativeShare("My Second Brain", text, None)
    else CopyToClipboard(text, "Brain content copied to clipboard!")
  }
}
