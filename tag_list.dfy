/**
 * The chip lists of the two subcategory dialogs (common sizes, materials
 * and pressure ratings): the add handler appends the trimmed input when it
 * is non-empty and not already listed, and clears the input only then; the
 * remove handler filters out every equal entry.
 */
module TagList {
  import opened JsText
  import opened Sequences

  /** The result of an add handler: the new list and the new content of its input field. */
  datatype Added = Added(list: seq<string>, input: string)

  /**
   * `if (input.trim() && !list.includes(input.trim()))` append the trimmed
   * input and clear the field; otherwise change nothing.
   */
  function AddTag(list: seq<string>, input: string): Added {
    var t := Trim(input);
    if t != "" && t !in list then Added(list + [t], "") else Added(list, input)
  }

  /** `list.filter(x => x !== tag)`. */
  function RemoveTag(list: seq<string>, tag: string): seq<string> {
    Keep(list, (x: string) => x != tag)
  }

  /** The list shape both dialogs keep from an empty start: no duplicates, no empty entries, every entry trimmed. */
  predicate Clean(list: seq<string>) {
    && NoDuplicates(list)
    && forall i :: 0 <= i < |list| ==> list[i] != "" && IsTrimmed(list[i])
  }

  /** An add keeps the old entries as a prefix and grows the list by at most the one trimmed input. */
  lemma AddTagGrows(list: seq<string>, input: string)
    ensures var r := AddTag(list, input);
      && r.list[..|list|] == list
      && |list| <= |r.list| <= |list| + 1
      && (|r.list| == |list| + 1 <==> r.input == "" && Trim(input) != "" && Trim(input) !in list)
      && (|r.list| == |list| + 1 ==> r.list[|list|] == Trim(input))
  {
    var r := AddTag(list, input);
    assert (list + [Trim(input)])[..|list|] == list;
    if Trim(input) != "" && Trim(input) !in list {
    } else {
      assert r.list == list;
    }
  }

  /** An add keeps a clean list clean. */
  lemma AddTagKeepsClean(list: seq<string>, input: string)
    requires Clean(list)
    ensures Clean(AddTag(list, input).list)
  {
    var t := Trim(input);
    if t != "" && t !in list {
      TrimShape(input);
      var ys := list + [t];
      forall i, j | 0 <= i < j < |ys| ensures ys[i] != ys[j] {
        if j == |list| {
          assert ys[i] == list[i];
        }
      }
    }
  }

  /** A remove keeps exactly the entries that differ from the tag, in their order. */
  lemma RemoveTagContents(list: seq<string>, tag: string)
    ensures forall x :: x in RemoveTag(list, tag) <==> x in list && x != tag
    ensures tag !in RemoveTag(list, tag)
    ensures IsSubsequence(RemoveTag(list, tag), list)
  {
    KeepContents(list, (x: string) => x != tag);
    KeepKeepsOrder(list, (x: string) => x != tag);
  }

  /** A remove keeps a clean list clean. */
  lemma RemoveTagKeepsClean(list: seq<string>, tag: string)
    requires Clean(list)
    ensures Clean(RemoveTag(list, tag))
  {
    var r := RemoveTag(list, tag);
    KeepNoDuplicates(list, (x: string) => x != tag);
    KeepContents(list, (x: string) => x != tag);
    forall i | 0 <= i < |r| ensures r[i] != "" && IsTrimmed(r[i]) {
      assert r[i] in r;
    }
  }

  /** Removing a tag that is not listed changes nothing. */
  lemma RemoveAbsentTag(list: seq<string>, tag: string)
    requires tag !in list
    ensures RemoveTag(list, tag) == list
  {
    KeepAll(list, (x: string) => x != tag);
  }

  /** Removing the chip that an add just created gives back the list before the add. */
  lemma RemoveUndoesAdd(list: seq<string>, input: string)
    requires Trim(input) != "" && Trim(input) !in list
    ensures RemoveTag(AddTag(list, input).list, Trim(input)) == list
  {
    var t := Trim(input);
    KeepAppend(list, [t], (x: string) => x != t);
    RemoveAbsentTag(list, t);
    assert Keep([t], (x: string) => x != t) == [] by {
      assert [t][1..] == [];
    }
  }

  /** An add never repairs a list that already holds a duplicate: the old entries stay as they were. */
  lemma AddTagKeepsDuplicates(list: seq<string>, input: string, i: nat, j: nat)
    requires i < j < |list| && list[i] == list[j]
    ensures var r := AddTag(list, input).list; j < |r| && r[i] == r[j]
  {
    AddTagGrows(list, input);
    var r := AddTag(list, input).list;
    assert r[i] == r[..|list|][i] && r[j] == r[..|list|][j];
  }

  /** A rejected add leaves the typed text in the field. */
  lemma RejectedAddKeepsInput(list: seq<string>, input: string)
    requires Trim(input) == "" || Trim(input) in list
    ensures AddTag(list, input) == Added(list, input)
  {
  }
}
