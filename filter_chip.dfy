/** The stop-category chip (trip-eld-frontend/src/components/FilterChip.tsx): its label,
    the toggle it reports and the keys that trigger it. */
module FilterChip {
  import opened Wrappers
  import opened TripTypes

  /** The props the logic reads; `hasOnToggle` says whether an `onToggle` callback is set. */
  datatype ChipProps = ChipProps(value: StopType, caption: Option<string>, selected: Option<bool>, hasOnToggle: bool)

  /** One call `onToggle(value, next)`. */
  datatype ToggleCall = ToggleCall(value: StopType, next: bool)

  /** `handleToggle`: `onToggle?.(value, !selected)` with `selected` defaulting to false. */
  function HandleToggle(p: ChipProps): (calls: seq<ToggleCall>)
    ensures |calls| <= 1
    ensures calls != [] <==> p.hasOnToggle
    ensures forall c :: c in calls ==> c.value == p.value && c.next != p.selected.GetOr(false)
  {
    if p.hasOnToggle then [ToggleCall(p.value, !p.selected.GetOr(false))] else []
  }

  /** A chip whose `selected` was never given reports `true` on its first toggle. */
  lemma UnselectedChipTogglesOn(v: StopType, caption: Option<string>)
    ensures HandleToggle(ChipProps(v, caption, None, true)) == [ToggleCall(v, true)]
  {
  }

  datatype KeyOutcome = KeyOutcome(preventDefault: bool, calls: seq<ToggleCall>)

  /** `onKeyDown`: Space and Enter toggle once (and suppress the browser default); any
      other key does nothing. */
  function OnKeyDown(p: ChipProps, key: string): (o: KeyOutcome)
    ensures o.preventDefault <==> (key == " " || key == "Enter")
    ensures o.preventDefault ==> o.calls == HandleToggle(p)
    ensures !o.preventDefault ==> o.calls == []
  {
    if key == " " || key == "Enter" then KeyOutcome(true, HandleToggle(p)) else KeyOutcome(false, [])
  }

  /** Upper-casing of the letters a stop category is spelled with. */
  function ToUpper(c: char): (u: char)
    ensures 'a' <= c <= 'z' ==> 'A' <= u <= 'Z' && u as int == c as int - 32
    ensures !('a' <= c <= 'z') ==> u == c
  {
    if 'a' <= c <= 'z' then (c as int - 32) as char else c
  }

  /** `label ?? value[0].toUpperCase() + value.slice(1)`. */
  function DisplayLabel(value: StopType, caption: Option<string>): (s: string)
    ensures caption.Some? ==> s == caption.value
    ensures caption.None? ==>
      var name := StopTypeName(value);
      |s| == |name| && s[0] == ToUpper(name[0]) && s[1..] == name[1..]
  {
    match caption
    case Some(l) => l
    case None =>
      var name := StopTypeName(value);
      [ToUpper(name[0])] + name[1..]
  }

  lemma DefaultLabels()
    ensures DisplayLabel(Break, None) == "Break"
    ensures DisplayLabel(Rest, None) == "Rest"
    ensures DisplayLabel(Service, None) == "Service"
    ensures DisplayLabel(Fuel, None) == "Fuel"
  {
  }
}
