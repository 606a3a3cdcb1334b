/**
 * The abstract document that CloneFormFields works on: the template fields,
 * the numbered clone containers that sit between the template and the add
 * button, and which element has keyboard focus. The functions here say what
 * one click on the add button or on a delete button does to it.
 */
module Document {
  import opened Numbering
  import opened DeepMerge

  datatype Option<T> = None | Some(value: T)

  /** The tag of a form control: `input` (any non-hidden type), hidden `input`, `select`, `textarea`. */
  datatype ControlKind = Input | HiddenInput | Select | TextArea

  /**
   * A field of the group. An empty `id` or `htmlFor` stands for an absent
   * attribute (the clone and the label pass of the reordering test both for
   * truthiness; the `[id]` pass of the reordering does not).
   */
  datatype Field =
    | Label(htmlFor: string, id: string)
    | Control(kind: ControlKind, id: string, value: string)
    | Other(id: string)

  /**
   * A `div` classed `cloned-fields-<n>` holding the cloned fields followed by
   * one delete button whose `innerText` was set to `deleteText`.
   */
  datatype Container = Container(className: string, fields: seq<Field>, deleteText: Json)

  /** Where keyboard focus is, as far as this component moves it. */
  datatype Focus = Elsewhere | AddButton | InContainer(container: nat, field: nat)

  datatype Doc = Doc(containers: seq<Container>, focused: Focus)

  const ClassPrefix: string := "cloned-fields-"

  /** The class name `cloned-fields-${n}`. */
  function ClassName(n: nat): string {
    ClassPrefix + Decimal(n)
  }

  /** The container number a class name carries, if it is of the form `cloned-fields-<digits>`. */
  function ContainerNumber(className: string): Option<nat> {
    if |ClassPrefix| < |className| && className[..|ClassPrefix|] == ClassPrefix
       && AllDigits(className[|ClassPrefix|..])
    then Some(ParseDecimal(className[|ClassPrefix|..]))
    else None
  }

  lemma ContainerNumberOfClassName(n: nat)
    ensures ContainerNumber(ClassName(n)) == Some(n)
  {
    assert ClassName(n)[..|ClassPrefix|] == ClassPrefix;
    assert ClassName(n)[|ClassPrefix|..] == Decimal(n);
    ParseDecimalOfDecimal(n);
  }

  // ---------------------------------------------------------------- cloning

  /** The selector `input:not([type="hidden"]), select, textarea`. */
  predicate Focusable(f: Field) {
    f.Control? && f.kind != HiddenInput
  }

  /** `querySelector` for a focusable field: the first one in document order. */
  function FirstFocusable(fs: seq<Field>): (r: Option<nat>)
    ensures r.Some? ==> r.value < |fs| && Focusable(fs[r.value])
    ensures r.Some? ==> forall j | 0 <= j < r.value :: !Focusable(fs[j])
    ensures r.None? ==> forall j | 0 <= j < |fs| :: !Focusable(fs[j])
  {
    if fs == [] then None
    else if Focusable(fs[0]) then Some(0)
    else match FirstFocusable(fs[1..])
      case None => None
      case Some(j) => Some(j + 1)
  }

  /**
   * The clone of one template field in container `n`: a label gets `_<n>`
   * appended to a non-empty `htmlFor`; any other field with a non-empty id
   * gets its id renumbered and its value cleared.
   */
  function CloneField(f: Field, n: nat): Field {
    match f
    case Label(htmlFor, id) =>
      if htmlFor != "" then Label(htmlFor + Suffix(n), id) else f
    case Control(kind, id, value) =>
      if id != "" then Control(kind, Renumber(id, n), "") else f
    case Other(id) =>
      if id != "" then Other(Renumber(id, n)) else f
  }

  function CloneAll(template: seq<Field>, n: nat): (r: seq<Field>)
    ensures |r| == |template|
  {
    seq(|template|, j requires 0 <= j < |template| => CloneField(template[j], n))
  }

  /** The container the add button inserts as number `n`. */
  function NewContainer(template: seq<Field>, n: nat, deleteText: Json): Container {
    Container(ClassName(n), CloneAll(template, n), deleteText)
  }

  /** The document after a click on the add button. */
  function AfterClone(template: seq<Field>, deleteText: Json, d: Doc): Doc {
    var n := |d.containers| + 1;
    var c := NewContainer(template, n, deleteText);
    Doc(d.containers + [c],
        match FirstFocusable(c.fields)
        case Some(j) => InContainer(n - 1, j)
        case None => d.focused)
  }

  // ------------------------------------------------------------ renumbering

  /** The renumbering of an attribute that is present (non-empty). */
  function RenumberAttr(x: string, k: nat): string {
    if x != "" then Renumber(x, k) else x
  }

  /** The `label` pass of the reordering: a label's non-empty `htmlFor` is renumbered. */
  function RenumberLabelFor(f: Field, k: nat): Field {
    if f.Label? then f.(htmlFor := RenumberAttr(f.htmlFor, k)) else f
  }

  /** The `[id]` pass of the reordering: every non-empty id, labels included, is renumbered. */
  function RenumberId(f: Field, k: nat): Field {
    f.(id := RenumberAttr(f.id, k))
  }

  function RenumberField(f: Field, k: nat): Field {
    RenumberId(RenumberLabelFor(f, k), k)
  }

  function RenumberContainer(c: Container, k: nat): (r: Container)
    ensures |r.fields| == |c.fields|
  {
    Container(ClassName(k),
              seq(|c.fields|, i requires 0 <= i < |c.fields| => RenumberField(c.fields[i], k)),
              c.deleteText)
  }

  /** The containers after the reordering: the container at position `j` becomes number `j + 1`. */
  function Renumbered(cs: seq<Container>): (r: seq<Container>)
    ensures |r| == |cs|
  {
    seq(|cs|, j requires 0 <= j < |cs| => RenumberContainer(cs[j], j + 1))
  }

  function Without(cs: seq<Container>, i: nat): (r: seq<Container>)
    requires i < |cs|
    ensures |r| == |cs| - 1
  {
    cs[..i] + cs[i + 1..]
  }

  /** The document after a click on the delete button of container `i`. */
  function AfterDelete(d: Doc, i: nat): Doc
    requires i < |d.containers|
  {
    Doc(Renumbered(Without(d.containers, i)), AddButton)
  }

  // -------------------------------------------------------------- invariants

  /** A field of container `k` carries the number `k` in a non-empty label `htmlFor` and in a non-empty non-label id. */
  predicate FieldNumbered(f: Field, k: nat) {
    if f.Label? then f.htmlFor != "" ==> EndsWith(f.htmlFor, Suffix(k))
    else f.id != "" ==> EndsWith(f.id, Suffix(k))
  }

  predicate ContainerNumbered(c: Container, k: nat) {
    c.className == ClassName(k)
    && forall f {:trigger FieldNumbered(c.fields[f], k)} | 0 <= f < |c.fields| :: FieldNumbered(c.fields[f], k)
  }

  /** The containers are numbered `1..K` in document order. */
  predicate Numbered(cs: seq<Container>) {
    forall j {:trigger ContainerNumbered(cs[j], j + 1)} | 0 <= j < |cs| :: ContainerNumbered(cs[j], j + 1)
  }

  /**
   * `f` is a copy of template field `t` that differs from it only in its
   * numbering (and, for a control with an id, in its cleared value).
   */
  predicate CopyOf(f: Field, t: Field) {
    match t
    case Label(htmlFor, id) =>
      f.Label? && (f.htmlFor == "" <==> htmlFor == "")
      && (f.htmlFor != "" ==> StripSuffix(f.htmlFor) == htmlFor)
      && (f.id == "" <==> id == "") && StripSuffix(f.id) == StripSuffix(id)
    case Control(kind, id, value) =>
      f.Control? && f.kind == kind
      && (f.id == "" <==> id == "") && StripSuffix(f.id) == StripSuffix(id)
      && f.value == (if id != "" then "" else value)
    case Other(id) =>
      f.Other? && (f.id == "" <==> id == "") && StripSuffix(f.id) == StripSuffix(id)
  }

  /** Every container holds copies of the template fields, in template order, and the delete button. */
  predicate Copies(template: seq<Field>, deleteText: Json, cs: seq<Container>) {
    forall j {:trigger ContainerCopies(template, deleteText, cs[j])} | 0 <= j < |cs| ::
      ContainerCopies(template, deleteText, cs[j])
  }

  predicate ContainerCopies(template: seq<Field>, deleteText: Json, c: Container) {
    |c.fields| == |template| && c.deleteText == deleteText
    && forall f {:trigger CopyOf(c.fields[f], template[f])} | 0 <= f < |template| :: CopyOf(c.fields[f], template[f])
  }

  /** Focus inside a container is always on a focusable field that exists. */
  predicate FocusOk(d: Doc) {
    d.focused.InContainer? ==>
      d.focused.container < |d.containers|
      && d.focused.field < |d.containers[d.focused.container].fields|
      && Focusable(d.containers[d.focused.container].fields[d.focused.field])
  }

  predicate Consistent(template: seq<Field>, deleteText: Json, d: Doc) {
    Numbered(d.containers) && Copies(template, deleteText, d.containers) && FocusOk(d)
  }

  // ------------------------------------------------------------------ lemmas

  /** A clone is a copy of its template field that carries the container number. */
  lemma CloneFieldIsNumberedCopy(t: Field, n: nat)
    ensures CopyOf(CloneField(t, n), t) && FieldNumbered(CloneField(t, n), n)
    ensures t.Label? ==> CloneField(t, n).id == t.id
  {
    match t
    case Label(htmlFor, id) =>
      if htmlFor != "" { StripSuffixOfSuffixed(htmlFor, n); }
    case Control(kind, id, value) =>
    case Other(id) =>
  }

  lemma RenumberAttrFacts(x: string, k: nat)
    ensures RenumberAttr(x, k) == "" <==> x == ""
    ensures StripSuffix(RenumberAttr(x, k)) == StripSuffix(x)
    ensures x != "" ==> EndsWith(RenumberAttr(x, k), Suffix(k))
  {
  }

  /** Renumbering a copy keeps it a copy and gives it the new number. */
  lemma RenumberFieldIsNumberedCopy(f: Field, t: Field, k: nat)
    requires CopyOf(f, t)
    ensures CopyOf(RenumberField(f, k), t) && FieldNumbered(RenumberField(f, k), k)
    ensures f.id != "" ==> EndsWith(RenumberField(f, k).id, Suffix(k))
  {
    RenumberAttrFacts(f.id, k);
    if f.Label? {
      RenumberAttrFacts(f.htmlFor, k);
    }
  }

  /** The field with its numbering removed: what renumbering leaves alone. */
  function Unnumbered(f: Field): Field {
    match f
    case Label(htmlFor, id) => Label(StripSuffix(htmlFor), StripSuffix(id))
    case Control(kind, id, value) => Control(kind, StripSuffix(id), value)
    case Other(id) => Other(StripSuffix(id))
  }

  /** Renumbering changes nothing but the numbers. */
  lemma RenumberFieldKeepsUnnumbered(f: Field, k: nat)
    ensures Unnumbered(RenumberField(f, k)) == Unnumbered(f)
  {
  }

  /** The cloned container carries number `n` and holds numbered copies of the template. */
  lemma NewContainerIsNumberedCopy(template: seq<Field>, n: nat, deleteText: Json)
    ensures ContainerNumbered(NewContainer(template, n, deleteText), n)
    ensures ContainerCopies(template, deleteText, NewContainer(template, n, deleteText))
  {
    forall f | 0 <= f < |template|
      ensures CopyOf(CloneAll(template, n)[f], template[f])
      ensures FieldNumbered(CloneAll(template, n)[f], n)
    {
      CloneFieldIsNumberedCopy(template[f], n);
    }
  }

  /** The renumbering restores the numbering `1..K` and keeps every container a copy of the template. */
  lemma RenumberedIsConsistent(template: seq<Field>, deleteText: Json, cs: seq<Container>)
    requires Copies(template, deleteText, cs)
    ensures Numbered(Renumbered(cs)) && Copies(template, deleteText, Renumbered(cs))
  {
    forall j | 0 <= j < |cs|
      ensures ContainerNumbered(Renumbered(cs)[j], j + 1)
      ensures ContainerCopies(template, deleteText, Renumbered(cs)[j])
    {
      RenumberContainerIsNumberedCopy(template, deleteText, cs[j], j + 1);
    }
  }

  lemma RenumberContainerIsNumberedCopy(template: seq<Field>, deleteText: Json, c: Container, k: nat)
    requires ContainerCopies(template, deleteText, c)
    ensures ContainerNumbered(RenumberContainer(c, k), k)
    ensures ContainerCopies(template, deleteText, RenumberContainer(c, k))
  {
    forall f | 0 <= f < |c.fields|
      ensures CopyOf(RenumberContainer(c, k).fields[f], template[f])
      ensures FieldNumbered(RenumberContainer(c, k).fields[f], k)
    {
      RenumberFieldIsNumberedCopy(c.fields[f], template[f], k);
    }
  }

  /** A click on the add button keeps the document consistent. */
  lemma AfterCloneConsistent(template: seq<Field>, deleteText: Json, d: Doc)
    requires Consistent(template, deleteText, d)
    ensures Consistent(template, deleteText, AfterClone(template, deleteText, d))
  {
    var n := |d.containers| + 1;
    NewContainerIsNumberedCopy(template, n, deleteText);
    AppendConsistent(template, deleteText, d.containers, NewContainer(template, n, deleteText));
  }

  /** Appending a numbered copy as the next container keeps the numbering and the copies. */
  lemma AppendConsistent(template: seq<Field>, deleteText: Json, cs: seq<Container>, c: Container)
    requires Numbered(cs) && Copies(template, deleteText, cs)
    requires ContainerNumbered(c, |cs| + 1) && ContainerCopies(template, deleteText, c)
    ensures Numbered(cs + [c]) && Copies(template, deleteText, cs + [c])
  {
    forall j | 0 <= j < |cs| + 1
      ensures ContainerNumbered((cs + [c])[j], j + 1)
      ensures ContainerCopies(template, deleteText, (cs + [c])[j])
    {
      if j < |cs| {
        assert (cs + [c])[j] == cs[j];
      }
    }
  }

  /** A click on a delete button keeps the document consistent. */
  lemma AfterDeleteConsistent(template: seq<Field>, deleteText: Json, d: Doc, i: nat)
    requires Consistent(template, deleteText, d) && i < |d.containers|
    ensures Consistent(template, deleteText, AfterDelete(d, i))
  {
    var rest := Without(d.containers, i);
    assert forall j | 0 <= j < |rest| :: rest[j] == d.containers[if j < i then j else j + 1];
    RenumberedIsConsistent(template, deleteText, rest);
  }

  /**
   * Deleting container `i` removes exactly that one: the others keep their
   * relative order and their fields, up to the numbering.
   */
  lemma AfterDeleteKeepsOthers(d: Doc, i: nat)
    requires i < |d.containers|
    ensures |AfterDelete(d, i).containers| == |d.containers| - 1
    ensures forall j | 0 <= j < |d.containers| - 1 ::
      var survivor := d.containers[if j < i then j else j + 1];
      |AfterDelete(d, i).containers[j].fields| == |survivor.fields|
      && AfterDelete(d, i).containers[j].deleteText == survivor.deleteText
      && forall f | 0 <= f < |survivor.fields| ::
           Unnumbered(AfterDelete(d, i).containers[j].fields[f]) == Unnumbered(survivor.fields[f])
  {
    var rest := Without(d.containers, i);
    forall j | 0 <= j < |rest|
      ensures var c := Renumbered(rest)[j];
        |c.fields| == |rest[j].fields| && c.deleteText == rest[j].deleteText
        && forall f | 0 <= f < |c.fields| :: Unnumbered(c.fields[f]) == Unnumbered(rest[j].fields[f])
    {
      RenumberContainerKeepsUnnumbered(rest[j], j + 1);
    }
    WithoutAt(d.containers, i);
  }

  /** The container left at position `j` after removing position `i`. */
  lemma WithoutAt(cs: seq<Container>, i: nat)
    requires i < |cs|
    ensures forall j | 0 <= j < |cs| - 1 :: Without(cs, i)[j] == cs[if j < i then j else j + 1]
  {
  }

  lemma RenumberContainerKeepsUnnumbered(c: Container, k: nat)
    ensures forall f | 0 <= f < |c.fields| :: Unnumbered(RenumberContainer(c, k).fields[f]) == Unnumbered(c.fields[f])
  {
    forall f | 0 <= f < |c.fields|
      ensures Unnumbered(RenumberContainer(c, k).fields[f]) == Unnumbered(c.fields[f])
    {
      RenumberFieldKeepsUnnumbered(c.fields[f], k);
    }
  }

  // -------------------------------------------------------- any interleaving

  datatype Event = Clone | Delete(index: nat)

  /** One click; `None` when the delete button clicked does not exist. */
  function Step(template: seq<Field>, deleteText: Json, d: Doc, e: Event): Option<Doc> {
    match e
    case Clone => Some(AfterClone(template, deleteText, d))
    case Delete(i) => if i < |d.containers| then Some(AfterDelete(d, i)) else None
  }

  /** The document after a sequence of clicks, starting from no containers. */
  function Run(template: seq<Field>, deleteText: Json, es: seq<Event>): Option<Doc> {
    if es == [] then Some(Doc([], Elsewhere))
    else match Run(template, deleteText, es[..|es| - 1])
      case None => None
      case Some(d) => Step(template, deleteText, d, es[|es| - 1])
  }

  function Clones(es: seq<Event>): nat {
    if es == [] then 0 else Clones(es[..|es| - 1]) + (if es[|es| - 1].Clone? then 1 else 0)
  }

  /**
   * After any sequence of clones and deletes the containers are numbered
   * `1..K`, with `K` the clones minus the deletes, every non-empty label
   * `htmlFor` and every non-empty non-label id of container `k` ends in
   * `_<k>`, and every container is a copy of the template.
   */
  lemma {:induction false} RunConsistent(template: seq<Field>, deleteText: Json, es: seq<Event>)
    requires Run(template, deleteText, es).Some?
    ensures Consistent(template, deleteText, Run(template, deleteText, es).value)
    ensures |Run(template, deleteText, es).value.containers| == Clones(es) - (|es| - Clones(es))
  {
    if es != [] {
      var prefix := es[..|es| - 1];
      RunConsistent(template, deleteText, prefix);
      var d := Run(template, deleteText, prefix).value;
      match es[|es| - 1]
      case Clone => AfterCloneConsistent(template, deleteText, d);
      case Delete(i) => AfterDeleteConsistent(template, deleteText, d, i);
    }
  }

  // ------------------------------------------------------- canonical form

  /** The containers `K` clicks on the add button produce, with no delete in between. */
  function Fresh(template: seq<Field>, deleteText: Json, count: nat): (r: seq<Container>)
    ensures |r| == count
  {
    seq(count, j requires 0 <= j < count => NewContainer(template, j + 1, deleteText))
  }

  /** No label of the template carries an id (cloning keeps a label id, renumbering does not). */
  predicate NoLabelIds(template: seq<Field>) {
    forall j | 0 <= j < |template| :: template[j].Label? ==> template[j].id == ""
  }

  /** Renumbering the clone made as number `n` gives the clone that number `k` would have been. */
  lemma RenumberClone(t: Field, n: nat, k: nat)
    requires t.Label? ==> t.id == ""
    ensures RenumberField(CloneField(t, n), k) == CloneField(t, k)
  {
    match t
    case Label(htmlFor, id) =>
      if htmlFor != "" { StripSuffixOfSuffixed(htmlFor, n); }
    case Control(kind, id, value) =>
      if id != "" { RenumberTwice(id, n, k); }
    case Other(id) =>
      if id != "" { RenumberTwice(id, n, k); }
  }

  lemma RenumberNewContainer(template: seq<Field>, n: nat, k: nat, deleteText: Json)
    requires NoLabelIds(template)
    ensures RenumberContainer(NewContainer(template, n, deleteText), k) == NewContainer(template, k, deleteText)
  {
    var r := RenumberContainer(NewContainer(template, n, deleteText), k);
    forall j | 0 <= j < |template| ensures r.fields[j] == CloneAll(template, k)[j] {
      RenumberClone(template[j], n, k);
    }
  }

  lemma CloneFresh(template: seq<Field>, deleteText: Json, count: nat)
    ensures Fresh(template, deleteText, count) + [NewContainer(template, count + 1, deleteText)]
            == Fresh(template, deleteText, count + 1)
  {
  }

  lemma DeleteFreshAt(template: seq<Field>, deleteText: Json, count: nat, i: nat, j: nat)
    requires NoLabelIds(template) && i < count && j < count - 1
    ensures Renumbered(Without(Fresh(template, deleteText, count), i))[j] == NewContainer(template, j + 1, deleteText)
  {
    var m := if j < i then j else j + 1;
    WithoutAt(Fresh(template, deleteText, count), i);
    RenumberNewContainer(template, m + 1, j + 1, deleteText);
  }

  /** Deleting any one of `K` fresh clones leaves `K - 1` fresh clones. */
  lemma DeleteFresh(template: seq<Field>, deleteText: Json, count: nat, i: nat)
    requires NoLabelIds(template) && i < count
    ensures Renumbered(Without(Fresh(template, deleteText, count), i)) == Fresh(template, deleteText, count - 1)
  {
    forall j | 0 <= j < count - 1
      ensures Renumbered(Without(Fresh(template, deleteText, count), i))[j] == Fresh(template, deleteText, count - 1)[j]
    {
      DeleteFreshAt(template, deleteText, count, i, j);
    }
  }

  /**
   * Without label ids in the template, any sequence of clones and deletes
   * leaves exactly the containers that as many clones alone would have made:
   * deleting renumbers the survivors into the clones of their new positions.
   */
  lemma {:induction false} RunCanonical(template: seq<Field>, deleteText: Json, es: seq<Event>)
    requires NoLabelIds(template) && Run(template, deleteText, es).Some?
    ensures Run(template, deleteText, es).value.containers
            == Fresh(template, deleteText, |Run(template, deleteText, es).value.containers|)
  {
    if es != [] {
      var prefix := es[..|es| - 1];
      RunCanonical(template, deleteText, prefix);
      var d := Run(template, deleteText, prefix).value;
      var count := |d.containers|;
      match es[|es| - 1]
      case Clone =>
        CloneFresh(template, deleteText, count);
      case Delete(i) =>
        DeleteFresh(template, deleteText, count, i);
    }
  }

  // ------------------------------------------------------ labels and inputs

  /** A label that targets a field stays on its clone when the target id carries no `_<digits>` ending. */
  lemma CloneKeepsLabelTarget(l: Field, c: Field, n: nat)
    requires l.Label? && !c.Label? && l.htmlFor != "" && c.id == l.htmlFor
    requires forall i :: !SuffixMatchAt(c.id, i)
    ensures CloneField(l, n).htmlFor == CloneField(c, n).id
  {
  }

  /** The same holds after the clone has been renumbered to any position `k`. */
  lemma RenumberKeepsLabelTarget(l: Field, c: Field, n: nat, k: nat)
    requires l.Label? && !c.Label? && l.htmlFor != "" && c.id == l.htmlFor
    requires forall i :: !SuffixMatchAt(c.id, i)
    ensures RenumberField(CloneField(l, n), k).htmlFor == RenumberField(CloneField(c, n), k).id
  {
    StripSuffixOfSuffixed(l.htmlFor, n);
    RenumberTwice(c.id, n, k);
  }

  /** The first click on the add button, in a document without containers. */
  lemma RunFirstClone(template: seq<Field>, deleteText: Json)
    ensures Run(template, deleteText, [Clone]) == Some(AfterClone(template, deleteText, Doc([], Elsewhere)))
  {
    assert [Clone][..0] == [];
  }

  /** The first container is `cloned-fields-1`. */
  lemma FirstClassName()
    ensures ClassName(1) == "cloned-fields-1"
  {
    assert Decimal(1) == "1";
  }

  /**
   * A template id that already ends in `_<m>` loses that ending on the input
   * but keeps it on the label: a label for `x_<m>` and an input with id
   * `x_<m>` become, in container `n`, a label for `x_<m>_<n>` and an input
   * with id `x_<n>`, so the clone of the label no longer targets the clone
   * of the input.
   */
  lemma SuffixedTemplateSplitsLabel(x: string, m: nat, n: nat, value: string)
    ensures var l := CloneField(Label(x + Suffix(m), ""), n);
      var c := CloneField(Control(Input, x + Suffix(m), value), n);
      l.htmlFor == x + Suffix(m) + Suffix(n) && c.id == x + Suffix(n) && c.value == ""
      && l.htmlFor != c.id
  {
    StripSuffixOfSuffixed(x, m);
    assert |x + Suffix(m) + Suffix(n)| > |x + Suffix(n)|;
  }

  /** Deleting the only container leaves none, with the focus on the add button. */
  lemma CloneThenDelete(template: seq<Field>, deleteText: Json)
    ensures Run(template, deleteText, [Clone, Delete(0)]) == Some(Doc([], AddButton))
  {
    RunFirstClone(template, deleteText);
    assert [Clone, Delete(0)][..1] == [Clone];
    var d := AfterClone(template, deleteText, Doc([], Elsewhere));
    assert Renumbered(Without(d.containers, 0)) == [];
  }

  /** A delete button that does not exist cannot be clicked: the run is refused. */
  lemma DeleteBeforeClone(template: seq<Field>, deleteText: Json)
    ensures Run(template, deleteText, [Delete(0)]) == None
  {
    assert [Delete(0)][..0] == [];
  }
}
