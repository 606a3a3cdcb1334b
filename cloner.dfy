/**
 * The class CloneFormFields: it keeps the template fields, the merged
 * settings, the clone containers shown between the template and the add
 * button, and the focus; a click on the add button runs `CloneFields`, a
 * click on the delete button of a container runs `Delete`.
 */
module Cloner {
  import opened Numbering
  import opened DeepMerge
  import opened Document

  /** The constructor's `this.options`. */
  function DefaultOptions(): Json {
    Obj(map["buttonText" := Str("Hinzufügen"), "buttonRemoveText" := Str("Feldgruppe löschen")])
  }

  /** Without options the settings are the defaults. */
  lemma DefaultSettings()
    ensures MergeAll([DefaultOptions(), Undefined]) == DefaultOptions().members
  {
    assert [DefaultOptions(), Undefined][..1] == [DefaultOptions()];
    assert [DefaultOptions()][..0] == [];
    MergeIntoEmpty(DefaultOptions().members);
  }

  /** An option given by the caller replaces its default and leaves the other one. */
  lemma OverriddenSettings(text: string)
    ensures MergeAll([DefaultOptions(), Obj(map["buttonRemoveText" := Str(text)])])
            == map["buttonText" := Str("Hinzufügen"), "buttonRemoveText" := Str(text)]
  {
    var options := Obj(map["buttonRemoveText" := Str(text)]);
    assert [DefaultOptions(), options][..1] == [DefaultOptions()];
    assert [DefaultOptions()][..0] == [];
    MergeIntoEmpty(DefaultOptions().members);
    assert MergeAll([DefaultOptions()]) == DefaultOptions().members;
    var r := MergeInto(DefaultOptions().members, options);
    assert r.Keys == {"buttonText", "buttonRemoveText"};
    assert r["buttonText"] == Str("Hinzufügen");
    assert "buttonRemoveText" in options.members && options.members["buttonRemoveText"] == Str(text);
    assert MergedValue(DefaultOptions().members, "buttonRemoveText", Str(text)) == Str(text);
    assert r["buttonRemoveText"] == Str(text);
  }

  /** Cloning one more template field appends its clone. */
  lemma CloneAllStep(template: seq<Field>, i: nat, n: nat)
    requires i < |template|
    ensures CloneAll(template[..i + 1], n) == CloneAll(template[..i], n) + [CloneField(template[i], n)]
  {
    var longer, shorter := CloneAll(template[..i + 1], n), CloneAll(template[..i], n);
    forall j | 0 <= j < i ensures longer[j] == shorter[j] {
      assert template[..i + 1][j] == template[..i][j];
    }
  }

  /** The two passes over the fields of `c` make the container numbered `k`. */
  lemma RenumberPasses(c: Container, k: nat, labelled: seq<Field>, renumbered: seq<Field>)
    requires |labelled| == |c.fields| && |renumbered| == |c.fields|
    requires forall i | 0 <= i < |c.fields| :: labelled[i] == RenumberLabelFor(c.fields[i], k)
    requires forall i | 0 <= i < |c.fields| :: renumbered[i] == RenumberId(labelled[i], k)
    ensures Container(ClassName(k), renumbered, c.deleteText) == RenumberContainer(c, k)
  {
    assert renumbered == RenumberContainer(c, k).fields;
  }

  /** `container.querySelectorAll('label').forEach(...)`: renumbers the `htmlFor` of every label. */
  method RenumberLabels(fields: seq<Field>, number: nat) returns (r: seq<Field>)
    ensures |r| == |fields|
    ensures forall i | 0 <= i < |fields| :: r[i] == RenumberLabelFor(fields[i], number)
  {
    r := fields;
    for i := 0 to |fields|
      invariant |r| == |fields|
      invariant forall j | 0 <= j < i :: r[j] == RenumberLabelFor(fields[j], number)
      invariant forall j | i <= j < |fields| :: r[j] == fields[j]
    {
      var field := r[i];
      if field.Label? && field.htmlFor != "" {
        field := field.(htmlFor := Renumber(field.htmlFor, number));
      }
      assert field == RenumberLabelFor(fields[i], number);
      r := r[i := field];
    }
  }

  /** `container.querySelectorAll('[id]').forEach(...)`: renumbers every id, labels included. */
  method RenumberIds(fields: seq<Field>, number: nat) returns (r: seq<Field>)
    ensures |r| == |fields|
    ensures forall i | 0 <= i < |fields| :: r[i] == RenumberId(fields[i], number)
  {
    r := fields;
    for i := 0 to |fields|
      invariant |r| == |fields|
      invariant forall j | 0 <= j < i :: r[j] == RenumberId(fields[j], number)
      invariant forall j | i <= j < |fields| :: r[j] == fields[j]
    {
      var input := r[i];
      if input.id != "" {
        r := r[i := input.(id := Renumber(input.id, number))];
      }
    }
  }

  /**
   * `containers.forEach((container, index) => ...)`: the container at
   * position `index` gets number `index + 1` in its class name, its label
   * targets and its ids.
   */
  method RenumberContainers(cs: seq<Container>) returns (r: seq<Container>)
    ensures r == Renumbered(cs)
  {
    r := cs;
    for index := 0 to |cs|
      invariant |r| == |cs|
      invariant forall j | 0 <= j < index :: r[j] == RenumberContainer(cs[j], j + 1)
      invariant forall j | index <= j < |cs| :: r[j] == cs[j]
    {
      var container := r[index];
      var number := index + 1;
      var labelled := RenumberLabels(container.fields, number);
      var renumbered := RenumberIds(labelled, number);
      RenumberPasses(container, number, labelled, renumbered);
      r := r[index := Container(ClassName(number), renumbered, container.deleteText)];
    }
  }

  class CloneFormFields {
    /** The template: the elements the selector matched at construction. */
    const fields: seq<Field>
    /** `merge(this.options, options)`. */
    const settings: map<string, Json>
    /** The clone containers, in document order, between the template and the add button. */
    var containers: seq<Container>
    var focused: Focus

    /** The text of the add button. */
    function ButtonText(): Json {
      Get(settings, "buttonText")
    }

    /** The text of every delete button. */
    function RemoveText(): Json {
      Get(settings, "buttonRemoveText")
    }

    function Snapshot(): Doc
      reads this
    {
      Doc(containers, focused)
    }

    ghost predicate Valid()
      reads this
    {
      |fields| > 0 && Consistent(fields, RemoveText(), Snapshot())
    }

    /**
     * `new CloneFormFields(selector, options)` where the selector matched
     * `fields`: the settings are the defaults merged with `options`, and the add
     * button follows the last field, with no container yet.
     */
    constructor (fields: seq<Field>, options: Json)
      requires |fields| > 0
      requires MergeableArgs([DefaultOptions(), options])
      ensures this.fields == fields && settings == MergeAll([DefaultOptions(), options])
      ensures containers == [] && focused == Elsewhere
      ensures Valid()
      ensures options == Undefined ==>
                ButtonText() == Str("Hinzufügen") && RemoveText() == Str("Feldgruppe löschen")
    {
      var merged := Merge([DefaultOptions(), options]);
      DefaultSettings();
      this.fields := fields;
      settings := merged;
      containers := [];
      focused := Elsewhere;
    }

    /**
     * `cloneFields()`: inserts the container numbered `|containers| + 1` last,
     * before the add button, fills it with the clones of the template fields,
     * and focuses its first focusable field.
     */
    method CloneFields()
      requires Valid()
      modifies this
      ensures Valid()
      ensures containers == old(containers) + [NewContainer(fields, |old(containers)| + 1, RemoveText())]
      ensures Snapshot() == AfterClone(fields, RemoveText(), old(Snapshot()))
    {
      ghost var before := Snapshot();
      var number := |containers| + 1;
      containers := containers + [Container(ClassName(number), [], RemoveText())];
      var last := |containers| - 1;
      for i := 0 to |fields|
        invariant containers == before.containers + [Container(ClassName(number), CloneAll(fields[..i], number), RemoveText())]
        invariant focused == before.focused
      {
        var newField := CloneField(fields[i], number);
        CloneAllStep(fields, i, number);
        var container := containers[last];
        containers := containers[last := container.(fields := container.fields + [newField])];
      }
      assert fields[..|fields|] == fields;
      var first := FirstFocusable(containers[last].fields);
      if first.Some? {
        focused := InContainer(last, first.value);
      }
      AfterCloneConsistent(fields, RemoveText(), before);
    }

    /** A click on the delete button of container `i`: removes it, then reorders. */
    method Delete(i: nat)
      requires Valid() && i < |containers|
      modifies this
      ensures Valid()
      ensures Snapshot() == AfterDelete(old(Snapshot()), i)
    {
      ghost var before := Snapshot();
      containers := Without(containers, i);
      assert forall j | 0 <= j < |containers| :: containers[j] == before.containers[if j < i then j else j + 1];
      ReorderContainers();
    }

    /**
     * `reorderContainers()`: the container at position `j` gets class
     * `cloned-fields-<j + 1>` and its label targets and ids the suffix
     * `_<j + 1>`; then the add button gets the focus.
     */
    method ReorderContainers()
      requires |fields| > 0 && Copies(fields, RemoveText(), containers)
      modifies this
      ensures containers == Renumbered(old(containers)) && focused == AddButton
      ensures Valid()
    {
      ghost var before := containers;
      containers := RenumberContainers(containers);
      focused := AddButton;
      RenumberedIsConsistent(fields, RemoveText(), before);
    }
  }
}
