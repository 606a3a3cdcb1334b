# CloneFormFields in Dafny

A model of the class `CloneFormFields` (`src/scripts/main.js`). The class is
a browser widget that lets a user duplicate a group of form fields. Its
constructor takes the fields a CSS selector matches (the template) and an
options object. It merges the options into the default button texts and puts
an add button after the last template field.

- A click on the add button inserts a container `cloned-fields-<n>` before
  the add button, where `n` is one more than the number of containers.
- The container holds clones of the template fields and one delete button.
  A cloned label's non-empty `htmlFor` gets `_<n>` appended; the label's own
  id is left as it is. Any other cloned field with a non-empty id gets the id
  with one trailing `_<digits>` stripped and `_<n>` appended, and its value is
  cleared; a field without an id keeps its value.
- Focus then moves to the first input that is not of type `hidden`, or
  select or text area, of the new container. When there is none, focus stays
  where it was.
- A click on a delete button removes its container. The remaining
  containers are renumbered `1..K` in document order, and focus goes back to
  the add button.

The model has four modules:

- `Numbering` (`numbering.dfy`): the decimal text of a number. It also
  models the regular expression `/_[0-9]+$/`: `StripSuffix` removes one
  trailing `_<digits>`, and `Renumber` strips and then appends `_<n>`.
- `DeepMerge` (`merge.dfy`): the `merge(...objects)` helper, over a small
  JSON-like datatype (`Undefined`, strings, arrays, plain objects). It is
  specified by the functions `MergeInto`/`MergeAll`. It is implemented by the
  mutually recursive methods `Merge` (the loop over the arguments) and
  `Merger` (the `for...in` closure). `Merger` calls `Merge` back for nested
  plain objects, and recursion ends because a ghost height of the nested
  objects decreases.
- `Document` (`document.dfy`): the page reduced to what the class touches.
  This is a sequence of containers of flat fields (`Label`, `Control`,
  `Other`), each with its delete button, plus a focus marker.
  - `AfterClone` and `AfterDelete` say what one click does.
  - `Run` replays any sequence of clicks.
  - The lemmas prove that an invariant holds after every run: the containers
    are numbered `1..K`, every non-empty label `htmlFor` and every non-empty
    non-label id of container `k` ends in `_<k>`, and every container is a
    copy of the template.
  - When no template label carries an id, the containers after any run are
    exactly the ones that as many clicks on the add button alone would have
    made.
- `Cloner` (`cloner.dfy`): the class itself.
  - It holds `fields`, `settings`, `containers` and `focused`.
  - `CloneFields` and `ReorderContainers` rewrite the containers with loops,
    like the `forEach` passes of the source.
  - Each method is proved to produce exactly the document that the `Document`
    functions describe, and to keep the invariant `Valid()`.

An absent `id` or `htmlFor` attribute is the empty string. The clone
(`main.js:58`, `main.js:63`) and the label pass of the reordering
(`main.js:110`) test these attributes for truthiness, so there an attribute
that is present but empty behaves like an absent one. The `[id]` pass of the
reordering (`main.js:115-116`) has no such test; see "## Left out".

A template id that already carries a number is a case where the label and
its input drift apart. Take one label for `email_1` and one input with id
`email_1`. One might expect the first clone to have the input id
`email_1_1`. The code strips the `_1` before it appends the new suffix, so
the input gets `email_1`, while the label gets `email_1_1`.
`Document.SuffixedTemplateSplitsLabel` proves this for every base name and
pair of numbers. As a result, the cloned label no longer targets the cloned
input. When the template id does not end in `_<digits>`, the label and its
input stay paired through cloning and renumbering
(`Document.CloneKeepsLabelTarget`, `Document.RenumberKeepsLabelTarget`).

## Model

| member | source | states |
|---|---|---|
| Numbering.Decimal | src/scripts/main.js:50 | the text of a container number is a non-empty string of decimal digits with no leading zero (only `0` itself starts with `0`), as `${n}` writes it |
| Numbering.ParseDecimalOfDecimal | src/scripts/main.js:50 | the decimal text of `n` reads back as `n` |
| Numbering.DecimalInjective | src/scripts/main.js:50 | different container numbers have different decimal texts |
| Numbering.Suffix | src/scripts/main.js:59 | the suffix `_<n>` appended to label targets and ids: an underscore followed by the decimal digits of `n` |
| Numbering.StripSuffix | src/scripts/main.js:64 | wherever `_[0-9]+$` matches `s` from position `i`, the result is `s[..i]`; when it does not match, the result is `s` |
| Numbering.Renumber | src/scripts/main.js:64 | the renumbered string ends in `_<n>` and strips to what the original strips to |
| Numbering.StripSuffixOfSuffixed | src/scripts/main.js:116 | stripping `s + "_<n>"` gives back exactly `s` |
| Numbering.RenumberTwice | src/scripts/main.js:116 | renumbering to `m` and then to `n` is renumbering to `n`: only the last number counts |
| Numbering.RenumberFixed | src/scripts/main.js:116 | a string that already ends in `_<n>` is unchanged by renumbering to `n` |
| Numbering.StripSuffixRemovesOne | src/scripts/main.js:64 | only one suffix is removed: `email_1_1` becomes `email_1` |
| Numbering.StripSuffixNoMatch | src/scripts/main.js:64 | a string with no trailing `_<digits>` (`email1`) is left unchanged |
| Document.ClassName | src/scripts/main.js:50 | the class `cloned-fields-<n>`; `Document.ContainerNumberOfClassName` reads `n` back from it |
| Document.ContainerNumberOfClassName | src/scripts/main.js:48-51 | the class name `cloned-fields-<n>` carries exactly the number `n` |
| Document.FirstClassName | src/scripts/main.js:48-51 | the first container's class is `cloned-fields-1` |
| Document.FirstFocusable | src/scripts/main.js:91-94 | the index found holds a non-hidden input, select or text area, and no earlier field does; when there is none, no field qualifies |
| Document.Focusable | src/scripts/main.js:91 | the selector `input:not([type="hidden"]), select, textarea`: a control that is not a hidden input; used by `Document.FirstFocusable` |
| Document.CloneAll | src/scripts/main.js:53-70 | the `forEach` over the template: as many clones as template fields, the clone at position `j` made from template field `j`; its step is stated by `Cloner.CloneAllStep` |
| Document.NewContainer | src/scripts/main.js:48-78 | the container inserted as number `n`: class `cloned-fields-<n>`, the clones of the template, the delete text; stated by `Document.NewContainerIsNumberedCopy` |
| Document.CloneField | src/scripts/main.js:56-66 | one `cloneNode` plus the renaming of that field; its properties are stated by `Document.CloneFieldIsNumberedCopy` and `Document.SuffixedTemplateSplitsLabel` |
| Document.AfterClone | src/scripts/main.js:45-95 | the document after a click on the add button: the new container is appended last and the focus moves to its first focusable field if any; `Document.AfterCloneConsistent` and `Cloner.CloneFormFields.CloneFields` state its properties |
| Document.CloneFieldIsNumberedCopy | src/scripts/main.js:53-66 | a cloned field is a copy of its template field with the number `n` in every non-empty label `htmlFor` and every non-empty non-label id, with the value of a control cleared exactly when it has an id, and with a label's own id left as it is |
| Document.NewContainerIsNumberedCopy | src/scripts/main.js:48-70 | the new container is `cloned-fields-<n>` and holds numbered copies of the template fields, in template order |
| Document.AfterCloneConsistent | src/scripts/main.js:45-95 | a click on the add button keeps the numbering `1..K`, the copies and a valid focus |
| Document.RenumberLabelFor | src/scripts/main.js:109-113 | the `label` pass on one field: a label's non-empty `htmlFor` renumbered to `k`, every other field unchanged; `Cloner.RenumberLabels` is proved to apply it to every field |
| Document.RenumberId | src/scripts/main.js:115-117 | the `[id]` pass on one field: a non-empty id renumbered to `k`, labels included; `Cloner.RenumberIds` is proved to apply it to every field |
| Document.RenumberField | src/scripts/main.js:109-117 | the two reorder passes on one field: a label's non-empty `htmlFor`, then any non-empty id, renumbered to `k`; stated by `Document.RenumberFieldIsNumberedCopy` and `Document.RenumberFieldKeepsUnnumbered` |
| Document.RenumberContainer | src/scripts/main.js:108-117 | one container renumbered to `k`: its class name and every field; stated by `Document.RenumberContainerIsNumberedCopy` |
| Document.Renumbered | src/scripts/main.js:104-118 | every container renumbered to its position plus one; stated by `Document.RenumberedIsConsistent` |
| Document.RenumberContainerIsNumberedCopy | src/scripts/main.js:108-117 | a renumbered copy of the template is numbered `k` and is still a copy of the template |
| Document.RenumberFieldIsNumberedCopy | src/scripts/main.js:109-117 | renumbering keeps a field a copy of its template field and gives it the new number in its non-empty `htmlFor` and in its non-empty id, a label's own id included |
| Document.RenumberFieldKeepsUnnumbered | src/scripts/main.js:109-117 | renumbering changes nothing in a field but the numbers |
| Document.RenumberedIsConsistent | src/scripts/main.js:104-118 | after reordering, the container at position `j` is numbered `j + 1` and is still a copy of the template |
| Document.Without | src/scripts/main.js:81 | `remove()` of container `i`: one container fewer, the others in their order (`Document.WithoutAt`) |
| Document.AfterDelete | src/scripts/main.js:80-83 | the document after a click on the delete button of container `i`: that container removed, the rest renumbered, focus on the add button; stated by `Document.AfterDeleteConsistent` and `Document.AfterDeleteKeepsOthers` |
| Document.AfterDeleteConsistent | src/scripts/main.js:80-83 | a click on a delete button keeps the numbering `1..K`, the copies and a valid focus |
| Document.AfterDeleteKeepsOthers | src/scripts/main.js:80-83 | a delete removes exactly the chosen container; the other containers keep their relative order, and each keeps its delete button and all of its fields, which change only in their numbers |
| Document.Step | src/scripts/main.js:34-83 | one click: on the add button (line 34) or on the delete button of an existing container (lines 80-83); a delete button that does not exist gives no document |
| Document.Run | src/scripts/main.js:34-83 | the document after a sequence of clicks from the page without containers; stated by `Document.RunConsistent` and `Document.RunCanonical` |
| Document.RunConsistent | src/scripts/main.js:45-121 | after any sequence of clicks there are as many containers as clones minus deletes, numbered `1..K` in document order, each a numbered copy of the template |
| Document.RenumberNewContainer | src/scripts/main.js:104-118 | with no label ids in the template, renumbering the clone made as number `n` to `k` gives the clone that number `k` would have been |
| Document.DeleteFresh | src/scripts/main.js:80-83 | with no label ids in the template, deleting any one of `K` fresh clones leaves the `K - 1` fresh clones |
| Document.RunCanonical | src/scripts/main.js:45-121 | with no label ids in the template, every run leaves exactly the containers that that many clicks on the add button alone make |
| Document.CloneKeepsLabelTarget | src/scripts/main.js:56-66 | a label that targets a field whose id has no `_<digits>` ending still targets it after cloning |
| Document.RenumberKeepsLabelTarget | src/scripts/main.js:109-117 | the same label and field stay paired after the clone is renumbered to any position |
| Document.SuffixedTemplateSplitsLabel | src/scripts/main.js:56-66 | for a template id `x_<m>`, the cloned label targets `x_<m>_<n>` while the cloned input gets id `x_<n>` and an empty value, so the two differ |
| Document.RunFirstClone | src/scripts/main.js:45-51 | the first click on the add button makes one container from an empty document |
| Document.CloneThenDelete | src/scripts/main.js:80-83 | creating one container and deleting it leaves no containers, with the focus on the add button |
| Document.DeleteBeforeClone | src/scripts/main.js:72-83 | there is no delete button to click before a container exists |
| DeepMerge.MergeAll | src/scripts/main.js:159-184 | the object `merge(...objects)` returns: each argument merged in turn into a fresh object; `DeepMerge.Merge` computes it, `DeepMerge.MergeAllKeys` and `DeepMerge.MergeAllLastWins` state it |
| DeepMerge.Get | src/scripts/main.js:169 | the read `target[prop]`: the value held under the key, or `Undefined` when the key is missing |
| DeepMerge.OwnKeys | src/scripts/main.js:165-166 | the keys that `for (let prop in obj)` with the `hasOwnProperty` filter visits: the members of a plain object, none for `Undefined` or an empty string or array; `DeepMerge.QuirkFree` and `DeepMerge.MergeableArgs` exclude the non-empty strings and arrays whose indices the source would visit; `DeepMerge.MergeInto` adds exactly these keys |
| DeepMerge.Base | src/scripts/main.js:161-169 | the object the nested `merge(target[prop], obj[prop])` starts from: a copy of the members of `target[prop]` when it is a plain object, an empty object otherwise; `DeepMerge.NestedCall` proves the nested call merges into it |
| DeepMerge.MergedValue | src/scripts/main.js:167-173 | the value one own key of the source writes: a plain object merged into the copy of what the target holds there, any other value as it is; stated by `DeepMerge.NestedMergeKeys` |
| DeepMerge.MergeInto | src/scripts/main.js:164-176 | after `merger(src)` the target holds its old keys plus the own keys of `src` |
| DeepMerge.Merge | src/scripts/main.js:159-184 | the method returns exactly the left-to-right merge `MergeAll` of its arguments |
| DeepMerge.Merger | src/scripts/main.js:164-176 | the loop over the own keys writes exactly `MergeInto(target, obj)` |
| DeepMerge.MergeAllKeys | src/scripts/main.js:159-184 | a key is in the result if and only if some argument has it as an own key |
| DeepMerge.MergeAllLastWins | src/scripts/main.js:170-173 | the last argument holding a key decides it when it holds other than a plain object there (an array included) |
| DeepMerge.NestedMergeKeys | src/scripts/main.js:167-169 | plain objects under the same key merge recursively: the nested result holds the keys of both |
| DeepMerge.MergeIntoEmpty | src/scripts/main.js:169 | merging a plain object into a fresh object yields an equal copy |
| DeepMerge.MergeIntoIdempotent | src/scripts/main.js:164-176 | merging the same source a second time changes nothing |
| DeepMerge.NestedCall | src/scripts/main.js:169 | the recursive `merge(target[prop], obj[prop])` has valid arguments, a smaller height, and merges into the copy of `target[prop]` |
| Cloner.DefaultOptions | src/scripts/main.js:18-21 | the defaults `buttonText = "Hinzufügen"` and `buttonRemoveText = "Feldgruppe löschen"`; `Cloner.DefaultSettings` and `Cloner.OverriddenSettings` state what merging options into them gives |
| Cloner.DefaultSettings | src/scripts/main.js:18-22 | with `options` undefined the settings are exactly the two default texts |
| Cloner.OverriddenSettings | src/scripts/main.js:18-22 | an option given by the caller replaces its default and keeps the other default |
| Cloner.CloneAllStep | src/scripts/main.js:53-70 | each pass of the `forEach` appends the clone of the next template field |
| Cloner.RenumberLabels | src/scripts/main.js:109-113 | every label with a non-empty `htmlFor` gets it renumbered, and every other field is left as it was |
| Cloner.RenumberIds | src/scripts/main.js:115-117 | every non-empty id, label ids included, is renumbered, and nothing else changes |
| Cloner.RenumberPasses | src/scripts/main.js:108-117 | the class name and the two passes over a container give the container renumbered to `k` |
| Cloner.RenumberContainers | src/scripts/main.js:104-118 | the container at position `j` becomes the container renumbered to `j + 1` |
| Cloner.CloneFormFields.ButtonText | src/scripts/main.js:33 | `this.settings.buttonText`, the add button's text; the constructor ensures it is the default `Hinzufügen` when no options are given |
| Cloner.CloneFormFields.RemoveText | src/scripts/main.js:77 | `this.settings.buttonRemoveText`, the delete button's text; `Valid()` and `CloneFields` ensure every container carries it, and the constructor ensures it is the default `Feldgruppe löschen` when no options are given |
| Cloner.CloneFormFields.constructor | src/scripts/main.js:13-24 | the settings are the defaults merged with the options (with no options, the add and delete button texts are the defaults); there are no containers yet; the invariant holds |
| Cloner.CloneFormFields.CloneFields | src/scripts/main.js:45-95 | the new container `cloned-fields-<K+1>` is appended after the existing ones, which are unchanged; the document is `AfterClone` of the old one and the invariant holds |
| Cloner.CloneFormFields.Delete | src/scripts/main.js:80-83 | the document is `AfterDelete` of the old one and the invariant holds |
| Cloner.CloneFormFields.ReorderContainers | src/scripts/main.js:100-121 | the containers become their renumbering to `1..K`, the focus is on the add button, and the invariant holds |

## Left out

- DOM calls (`querySelectorAll`, `cloneNode`, `insertAdjacentElement`, `remove`, `focus`) are operations on the container sequence and the focus marker. Positions in the page between the template, the containers and the add button are implicit in that sequence.
- Fields are flat. A clone rewrites only the top-level element, while the reordering would also rewrite nested labels and `[id]` elements; nested descendants are not modelled.
- Event wiring (the click listeners and the Enter-key handlers at lines 34-39 and 85-89) is not modelled. A click is one call of `CloneFields` or `Delete`.
- `createElement` (lines 131-151) is modelled only as "insert a new container before the add button". The add button created by `addButton` (lines 29-40) is the `AddButton` focus target, and its text is the `buttonText` setting (`ButtonText()`). The copied properties (CSS classes, `role`, `tabIndex`) are not modelled.
- The counting selector `[class*="cloned-fields-"]` is taken to count exactly the containers. Fields carry no class attribute in the model, so a template field whose class contains `cloned-fields-` is not modelled. The model also assumes one such widget per page.
- Cloner.CloneFormFields.constructor: requires a non-empty template. With no matching field the source fails when it places the add button (it dereferences an undefined last field).
- DeepMerge.Merge: requires `MergeableArgs`. This excludes two cases where `for...in` would enumerate the characters of a string or the indices of an array. One is an argument that is itself a non-empty string or array (`options = "ab"` would copy the keys `"0"` and `"1"`). The other is merging a plain object into a non-empty string or array held under the same key.
- DeepMerge.Merger: requires `QuirkFree` for the same reason.
- An `id` or `htmlFor` that is present but empty is not distinguished from an absent one. In the source `[id]` would still select it and give it the id `_<k>`.
- Document.Other: an element that is neither a label nor a form control carries no value. The source's `newField.value = ""` (line 65) also clears the `value` of such an element when it has an id (`<button id="b" value="x">`, `<li value="3">`); the model does not.
- Values the user types into the fields between clicks, and focus moved by the user, are not modelled. Every clone starts from the template's values.
- JavaScript property order during `for...in` is not modelled; the merge result is a map.
- Object identity and sharing are not modelled: arrays and objects are values, so the merge result cannot alias its arguments.
