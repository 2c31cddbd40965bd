/** The searchable drop-down used by the entry and master-data forms, in
    single and multiple mode. The parent owns the value and echoes every
    change back, so the model keeps the value inside the widget's state. */
module SearchSelect {
  import opened Wrappers
  import opened Seqs
  import opened Strings

  datatype Opt = Opt(id: string, name: string)

  /** The value is one id or a list of ids. */
  datatype Value = One(id: string) | Many(ids: seq<string>)

  datatype Select = Select(
    options: seq<Opt>, value: Value, multiple: bool, disabled: bool, open: bool, term: string)

  /** Multiple mode is in force only when the value really is a list. */
  predicate MultiMode(s: Select) {
    s.multiple && s.value.Many?
  }

  /** Whether `o` survives the search box and, in multiple mode, is not
      chosen already. */
  predicate ListedOpt(s: Select, o: Opt) {
    Contains(ToLower(o.name), ToLower(s.term)) && !(MultiMode(s) && o.id in s.value.ids)
  }

  /** The options in the open list. */
  function Listed(s: Select): (r: seq<Opt>)
    ensures |r| <= |s.options|
  {
    Filter(s.options, (o: Opt) => ListedOpt(s, o))
  }

  /** The option shown in single mode: the first whose id is the value. */
  function SelectedOption(s: Select): (r: Option<Opt>)
    ensures r.Some? ==> !s.multiple && s.value.One? && r.value in s.options && r.value.id == s.value.id
  {
    if s.multiple then None
    else match s.value
      case One(v) => FindFirst(s.options, (o: Opt) => o.id == v)
      case Many(_) => None
  }

  /** The chips shown in multiple mode, in option order. */
  function SelectedOptions(s: Select): (r: seq<Opt>) {
    if MultiMode(s) then Filter(s.options, (o: Opt) => o.id in s.value.ids) else []
  }

  /** `handleSelect`: multiple mode appends the id; otherwise the value
      becomes the id and the list closes. The search is cleared. */
  function Choose(s: Select, id: string): (r: Select)
    ensures r.term == ""
    ensures r.options == s.options && r.multiple == s.multiple && r.disabled == s.disabled
  {
    if MultiMode(s) then s.(value := Many(s.value.ids + [id]), term := "")
    else s.(value := One(id), open := false, term := "")
  }

  /** `handleRemove`: multiple mode drops every copy of the id; otherwise
      nothing happens. The disabled flag is not consulted. */
  function Remove(s: Select, id: string): (r: Select)
    ensures r.options == s.options && r.open == s.open && r.term == s.term
  {
    if MultiMode(s) then s.(value := Many(Filter(s.value.ids, (x: string) => x != id))) else s
  }

  /** `toggleOpen`. */
  function Toggle(s: Select): (r: Select)
    ensures s.disabled ==> r == s
    ensures !s.disabled ==> r.open == !s.open
  {
    if s.disabled then s else s.(open := !s.open)
  }

  /** Toggling twice restores the widget. */
  lemma ToggleTwice(s: Select)
    ensures Toggle(Toggle(s)) == s
  {
  }

  /** An option is listed exactly when it is stored, its lower-cased name
      contains the lower-cased search and, in multiple mode, it is not
      chosen; with an empty search every unchosen option is listed. */
  lemma ListedSpec(s: Select, o: Opt)
    ensures o in Listed(s) <==>
      (o in s.options && Contains(ToLower(o.name), ToLower(s.term)) && !(MultiMode(s) && o.id in s.value.ids))
    ensures s.term == "" ==> (o in Listed(s) <==> o in s.options && !(MultiMode(s) && o.id in s.value.ids))
  {
    FilterMembership(s.options, (o: Opt) => ListedOpt(s, o), o);
    assert OccursAt(ToLower(o.name), ToLower(""), 0);
  }

  /** Choosing a listed option in multiple mode never creates a repeat,
      and the chosen id ends the list; in single mode the value is the id
      and the list is closed. */
  lemma ChooseListed(s: Select, o: Opt)
    requires o in Listed(s)
    ensures MultiMode(s) && NoDup(s.value.ids) ==>
      (Choose(s, o.id).value == Many(s.value.ids + [o.id]) && NoDup(Choose(s, o.id).value.ids))
    ensures !MultiMode(s) ==> Choose(s, o.id).value == One(o.id) && !Choose(s, o.id).open
  {
    ListedSpec(s, o);
  }

  /** Removing an id drops all its copies and keeps the other ids with
      their counts, in order. */
  lemma RemoveSpec(s: Select, id: string, x: string)
    requires MultiMode(s)
    ensures Remove(s, id).value.Many?
    ensures Occurrences(Remove(s, id).value.ids, x) == if x == id then 0 else Occurrences(s.value.ids, x)
  {
    FilterOccurrences(s.value.ids, (y: string) => y != id, x);
  }

  /** Choosing an id not yet chosen and removing it again restores the
      value. */
  lemma ChooseThenRemove(s: Select, id: string)
    requires MultiMode(s) && id !in s.value.ids
    ensures Remove(Choose(s, id), id).value == s.value
  {
    var keep := (y: string) => y != id;
    FilterConcat(s.value.ids, [id], keep);
    FilterAll(s.value.ids, keep);
  }

  /** The chips are the stored options whose id is chosen, so a chosen id
      with no option shows nothing; an option is either a chip or, with an
      empty search, in the list. */
  lemma SelectedOptionsSpec(s: Select, o: Opt)
    requires MultiMode(s)
    ensures o in SelectedOptions(s) <==> o in s.options && o.id in s.value.ids
    ensures s.term == "" && o in s.options ==> (o in SelectedOptions(s) <==> o !in Listed(s))
  {
    FilterMembership(s.options, (o: Opt) => o.id in s.value.ids, o);
    ListedSpec(s, o);
  }
}
