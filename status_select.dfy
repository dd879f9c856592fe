/** The tracking-status drop-down of a list row: the three-value status
    enumeration, its label table in the user's language, the options it
    offers and the fallback it applies to a stored value. */
module StatusSelect {
  import opened Types

  datatype AnimeStatus = Watching | Completed | PlanToWatch

  /** The key under which a status is stored and passed around: never
      empty, so it is truthy, and no name an object inherits. */
  function Key(s: AnimeStatus): (r: string)
    ensures r != [] && !IsInheritedName(r)
  {
    match s
    case Watching => "watching"
    case Completed => "completed"
    case PlanToWatch => "plan_to_watch"
  }

  /** The label shown for a status, never empty. */
  function Label(s: AnimeStatus): (r: string)
    ensures r != []
  {
    match s
    case Watching => "Viendo"
    case Completed => "Completado"
    case PlanToWatch => "Pendiente"
  }

  /** Looks a string up among the table's own keys. */
  function FromKey(k: string): (r: Option<AnimeStatus>)
    ensures r.Some? ==> Key(r.value) == k
    ensures r.None? ==> forall s: AnimeStatus :: Key(s) != k
  {
    if k == "watching" then Some(Watching)
    else if k == "completed" then Some(Completed)
    else if k == "plan_to_watch" then Some(PlanToWatch)
    else None
  }

  /** Every key is read back as its own status. */
  lemma KeyRoundTrip(s: AnimeStatus)
    ensures FromKey(Key(s)) == Some(s)
  {
  }

  /** Keys and labels both tell the three statuses apart. */
  lemma KeysAndLabelsDistinct(s: AnimeStatus, t: AnimeStatus)
    ensures Key(s) == Key(t) <==> s == t
    ensures Label(s) == Label(t) <==> s == t
  {
  }

  /** The table's entries in declaration order, which is the order in which
      the drop-down lists them. */
  function Order(): seq<AnimeStatus> {
    [Watching, Completed, PlanToWatch]
  }

  /** The drop-down's items as (value, label) pairs: one per status, in table
      order, each carrying its status's key and label. */
  function Options(): (r: seq<(string, string)>)
    ensures |r| == |Order()| == 3
    ensures forall i :: 0 <= i < |r| ==> r[i] == (Key(Order()[i]), Label(Order()[i]))
    ensures forall s: AnimeStatus :: (Key(s), Label(s)) in r
    ensures forall i, j :: 0 <= i < j < |r| ==> r[i].0 != r[j].0 && r[i].1 != r[j].1
  {
    [(Key(Watching), Label(Watching)), (Key(Completed), Label(Completed)),
     (Key(PlanToWatch), Label(PlanToWatch))]
  }

  /** Choosing the item at `index` hands the item's value to the change
      handler unchanged, as a status whose key is that value. */
  function Select(index: nat): (s: AnimeStatus)
    requires index < |Options()|
    ensures Key(s) == Options()[index].0
    ensures Label(s) == Options()[index].1
  {
    Order()[index]
  }

  /** The status the drop-down shows for a stored value: the value itself if
      it is one of the table's keys, otherwise (empty or unknown)
      `plan_to_watch`. */
  function CurrentStatus(value: string): (r: AnimeStatus)
    ensures FromKey(value).Some? ==> Key(r) == value
    ensures FromKey(value).None? ==> r == PlanToWatch
  {
    if value != "" && FromKey(value).Some? then FromKey(value).value else PlanToWatch
  }

  /** The status shown for a key is the status of that key. */
  lemma CurrentStatusOfKey(s: AnimeStatus)
    ensures CurrentStatus(Key(s)) == s
  {
    KeyRoundTrip(s);
  }

  /** The property names every plain JavaScript object inherits from
      `Object.prototype`; looking any of them up on the label table yields a
      truthy value (a function, or the prototype itself for `__proto__`). */
  predicate IsInheritedName(k: string) {
    || k == "constructor" || k == "hasOwnProperty" || k == "isPrototypeOf"
    || k == "propertyIsEnumerable" || k == "toLocaleString" || k == "toString"
    || k == "valueOf" || k == "__proto__" || k == "__defineGetter__"
    || k == "__defineSetter__" || k == "__lookupGetter__" || k == "__lookupSetter__"
  }

  /** The fallback as the component writes it, `value && statusConfig[value]
      ? value : 'plan_to_watch'`: a property lookup on a plain object, which
      also succeeds for inherited names, so such a value is passed through. */
  function CurrentStatusAsWritten(value: string): (r: string)
    ensures value != "" && (FromKey(value).Some? || IsInheritedName(value)) ==> r == value
    ensures FromKey(value).None? && !IsInheritedName(value) ==> r == "plan_to_watch"
  {
    if value != "" && (FromKey(value).Some? || IsInheritedName(value)) then value
    else "plan_to_watch"
  }

  /** The written fallback lets "constructor" through: the shown value is
      then no status at all, while the corrected fallback shows
      `plan_to_watch`. */
  lemma AsWrittenLeaksInheritedName()
    ensures CurrentStatusAsWritten("constructor") == "constructor"
    ensures forall s: AnimeStatus :: Key(s) != CurrentStatusAsWritten("constructor")
    ensures CurrentStatus("constructor") == PlanToWatch
  {
  }

  /** On every value that is not an inherited name, the written fallback
      and the corrected one agree. */
  lemma AsWrittenAgreesOffInheritedNames(value: string)
    requires !IsInheritedName(value)
    ensures CurrentStatusAsWritten(value) == Key(CurrentStatus(value))
  {
  }
}
