/**
 * The priority badge: any incoming value is normalised to one of the three
 * priorities, which selects a style (colour family and icon) and a label.
 */
module PriorityBadge {
  import opened Wrappers
  import opened JsStrings
  import opened LocalStorageTasks

  /** One entry of `priorityStyles`: the colour family of its classes, and its icon. */
  datatype Style = Style(tone: string, icon: string)

  /** `priorityStyles`, keyed by priority. */
  const Styles: map<string, Style> := map[
    LOW := Style("green", "\U{2B07}\U{FE0F}"),
    MEDIUM := Style("yellow", "\U{27A1}\U{FE0F}"),
    HIGH := Style("red", "\U{2B06}\U{FE0F}")
  ]

  /** `safePriority`: a known priority is kept, anything else (absent included) becomes `'medium'`. */
  function SafePriority(p: Option<string>): (r: string)
    ensures r in {LOW, MEDIUM, HIGH}
    ensures p.Some? && p.value in {LOW, MEDIUM, HIGH} ==> r == p.value
    ensures p.None? || p.value !in {LOW, MEDIUM, HIGH} ==> r == MEDIUM
  {
    if p.Some? && p.value != "" && p.value in [LOW, MEDIUM, HIGH] then p.value else MEDIUM
  }

  /** The style lookup, with its fallback to the medium style. */
  function StyleFor(p: Option<string>): Style {
    var safe := SafePriority(p);
    if safe in Styles then Styles[safe] else Styles[MEDIUM]
  }

  /** The lookup always finds an entry, so its fallback is never taken. */
  lemma StyleLookupHits(p: Option<string>)
    ensures SafePriority(p) in Styles
    ensures StyleFor(p) == Styles[SafePriority(p)]
  {
  }

  /** `getDisplayText`: first character uppercased, the rest lowercased; a falsy value reads `'Medium'`. */
  function DisplayText(p: string): (r: string)
    ensures p == "" ==> r == "Medium"
    ensures p != "" ==> |r| == |p| && !('a' <= r[0] <= 'z')
    ensures p != "" ==> forall i :: 1 <= i < |r| ==> !('A' <= r[i] <= 'Z')
    ensures p != "" ==> ToLower(r) == ToLower(p)
  {
    if p == "" then "Medium" else [UpperChar(p[0])] + ToLower(p[1..])
  }

  /** The badge shows `Low`/`Medium`/`High` with the down/right/up arrow for the matching priority. */
  lemma BadgeForEachPriority(p: Option<string>)
    ensures SafePriority(p) == LOW ==> DisplayText(SafePriority(p)) == "Low" && StyleFor(p).icon == "\U{2B07}\U{FE0F}"
    ensures SafePriority(p) == MEDIUM ==> DisplayText(SafePriority(p)) == "Medium" && StyleFor(p).icon == "\U{27A1}\U{FE0F}"
    ensures SafePriority(p) == HIGH ==> DisplayText(SafePriority(p)) == "High" && StyleFor(p).icon == "\U{2B06}\U{FE0F}"
  {
  }
}
