/**
 * The parts of the main view that depend on data: the header title, the
 * "N item(s) saved" line and the choice between the empty-state panel and
 * the card grid.
 */
module View {
  import opened Content
  import opened Store

  /** The decimal digit for `d`. */
  function DigitChar(d: nat): (c: char)
    requires d < 10
    ensures '0' <= c <= '9'
  {
    (48 + d) as char
  }

  /** The value of a string of decimal digits. */
  function DigitsValue(s: string): nat
    requires forall i :: 0 <= i < |s| ==> '0' <= s[i] <= '9'
  {
    if s == [] then 0 else DigitsValue(s[..|s| - 1]) * 10 + (s[|s| - 1] as int - 48)
  }

  /** How a count is rendered into the page: decimal digits, no leading zero. */
  function Decimal(n: nat): (r: string)
    ensures |r| > 0
    ensures forall i :: 0 <= i < |r| ==> '0' <= r[i] <= '9'
    ensures |r| > 1 ==> r[0] != '0'
  {
    if n < 10 then [DigitChar(n)] else Decimal(n / 10) + [DigitChar(n % 10)]
  }

  /** Reading the rendered digits back gives the count. */
  lemma {:induction false} DecimalRoundTrip(n: nat)
    ensures DigitsValue(Decimal(n)) == n
  {
    if n >= 10 {
      DecimalRoundTrip(n / 10);
      var d := Decimal(n);
      assert d[..|d| - 1] == Decimal(n / 10);
    }
  }

  /** The noun after the count. */
  function Noun(n: nat): string {
    if n == 1 then "item" else "items"
  }

  /** The line under the header: the visible count, the noun, and "saved". */
  function CountLabel(visible: seq<ContentItem>): string {
    Decimal(|visible|) + " " + Noun(|visible|) + " saved"
  }

  /**
   * The count line begins with the number of visible items and uses the
   * singular noun exactly when one item is visible.
   */
  lemma CountLabelSpec(visible: seq<ContentItem>)
    ensures var d := Decimal(|visible|);
      |d| <= |CountLabel(visible)| && CountLabel(visible)[..|d|] == d && DigitsValue(d) == |visible|
    ensures CountLabel(visible) == Decimal(|visible|) + " item saved" <==> |visible| == 1
    ensures CountLabel(visible) == Decimal(|visible|) + " items saved" <==> |visible| != 1
  {
    DecimalRoundTrip(|visible|);
    var d := Decimal(|visible|);
    assert CountLabel(visible) == d + (" " + Noun(|visible|) + " saved");
  }

  /** Whether the empty-state panel is shown instead of the card grid. */
  predicate ShowsEmptyState(visible: seq<ContentItem>) {
    |visible| == 0
  }

  /**
   * The empty-state panel appears exactly when no stored item is selected;
   * under "all" that means exactly when the store is empty.
   */
  lemma EmptyStateExactly(s: seq<ContentItem>, sel: Selection)
    ensures ShowsEmptyState(Visible(s, sel)) <==> forall i :: 0 <= i < |s| ==> !Selects(sel, s[i])
    ensures sel == All ==> (ShowsEmptyState(Visible(s, sel)) <==> s == [])
  {
    var r := Visible(s, sel);
    if r != [] {
      assert r[0] in s;
    }
  }

  /** The page heading: "All Content" or the selected type's label. */
  function HeaderTitle(sel: Selection): (r: string)
    ensures r == "All Content" <==> sel == All
    ensures sel.Only? ==> r == Label(sel.kind)
  {
    match sel
    case All => "All Content"
    case Only(t) => Label(t)
  }
}
