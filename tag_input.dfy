/**
 * The tag input (`src/components/ui/TagInput.tsx`): Enter adds the typed
 * text as a tag unless it is already one and clears the text; Backspace
 * on empty text drops the last tag; the remove button drops every copy of
 * a tag. The text is not trimmed.
 */
module TagInput {
  import opened Common

  datatype Key = Enter | Backspace | OtherKey

  predicate NoDuplicates(tags: seq<string>)
  {
    forall i, j :: 0 <= i < j < |tags| ==> tags[i] != tags[j]
  }

  /** The tags and the text after a key press, as the handler leaves them. */
  datatype TagState = TagState(tags: seq<string>, input: string)

  /** `handleKeyDown` on a state. */
  function KeyDown(st: TagState, key: Key): TagState
  {
    if key == Enter && st.input != "" then
      TagState(if st.input in st.tags then st.tags else st.tags + [st.input], "")
    else if key == Backspace && st.input == "" && |st.tags| > 0 then
      TagState(st.tags[..|st.tags| - 1], st.input)
    else st
  }

  /**
   * Enter with text: the text becomes a tag iff it is not one already, and
   * the text is cleared either way.
   */
  lemma EnterAddsNew(st: TagState)
    requires st.input != ""
    ensures KeyDown(st, Enter).input == ""
    ensures st.input !in st.tags ==> KeyDown(st, Enter).tags == st.tags + [st.input]
    ensures st.input in st.tags ==> KeyDown(st, Enter).tags == st.tags
    ensures st.input in KeyDown(st, Enter).tags
  {
  }

  /** Backspace on empty text removes exactly the last tag. */
  lemma BackspaceDropsLast(st: TagState)
    requires st.input == "" && |st.tags| > 0
    ensures KeyDown(st, Backspace).tags + [st.tags[|st.tags| - 1]] == st.tags
  {
  }

  /** Enter on empty text, Backspace with text, and any other key change nothing. */
  lemma OtherKeysIgnored(st: TagState, key: Key)
    requires key == OtherKey || (key == Enter && st.input == "") || (key == Backspace && st.input != "")
    ensures KeyDown(st, key) == st
  {
  }

  /** Text made of white space only is still added: the text is not trimmed. */
  lemma BlankTextBecomesTag(tags: seq<string>)
    requires " " !in tags
    ensures KeyDown(TagState(tags, " "), Enter).tags == tags + [" "]
  {
  }

  /** A duplicate-free tag list stays duplicate-free under every key. */
  lemma KeyDownKeepsNoDuplicates(st: TagState, key: Key)
    requires NoDuplicates(st.tags)
    ensures NoDuplicates(KeyDown(st, key).tags)
  {
    if key == Enter && st.input != "" && st.input !in st.tags {
      var t := st.tags + [st.input];
      forall i, j | 0 <= i < j < |t| ensures t[i] != t[j] {
        if j == |t| - 1 {
          assert t[i] == st.tags[i];
        }
      }
    }
  }

  /** `removeTag`: every copy of the tag goes, the others keep their order. */
  function RemoveTag(tags: seq<string>, tag: string): (r: seq<string>)
    ensures tag !in r
    ensures forall t :: t != tag ==> (t in r <==> t in tags)
    ensures |r| <= |tags|
  {
    assert |multiset(RemoveAll(tags, tag))| <= |multiset(tags)|;
    RemoveAll(tags, tag)
  }

  /** Removal keeps the order of the remaining tags: a split list is cleaned part by part. */
  lemma RemoveTagOrder(a: seq<string>, b: seq<string>, tag: string)
    ensures RemoveTag(a + b, tag) == RemoveTag(a, tag) + RemoveTag(b, tag)
  {
    RemoveAllAppend(a, b, tag);
  }

  /** Removing a tag from a duplicate-free list keeps it duplicate-free. */
  lemma {:induction false} RemoveKeepsNoDuplicates(tags: seq<string>, tag: string)
    requires NoDuplicates(tags)
    ensures NoDuplicates(RemoveTag(tags, tag))
  {
    if tags != [] {
      var rest := tags[1..];
      assert NoDuplicates(rest) by {
        forall i, j | 0 <= i < j < |rest| ensures rest[i] != rest[j] {
          assert rest[i] == tags[i + 1] && rest[j] == tags[j + 1];
        }
      }
      RemoveKeepsNoDuplicates(rest, tag);
      assert tags[0] !in rest by {
        forall k | 0 <= k < |rest| ensures rest[k] != tags[0] {
          assert rest[k] == tags[k + 1];
        }
      }
      var r := RemoveTag(tags, tag);
      var tail := RemoveTag(rest, tag);
      RemoveAllHead(tags, tag);
      assert tags[0] !in tail;
      if tags[0] != tag {
        assert r == [tags[0]] + tail;
        forall i, j | 0 <= i < j < |r| ensures r[i] != r[j] {
          if i == 0 {
            assert r[j] == tail[j - 1];
          } else {
            assert r[i] == tail[i - 1] && r[j] == tail[j - 1];
          }
        }
      } else {
        assert r == tail;
      }
    }
  }

  /** The tag input's state: the tags it is given and the text being typed. */
  class TagField {
    var tags: seq<string>
    var input: string

    constructor(tags: seq<string>)
      ensures this.tags == tags && input == ""
    {
      this.tags := tags;
      input := "";
    }

    /** The text field's change handler. */
    method SetInput(text: string)
      modifies this`input
      ensures input == text
    {
      input := text;
    }

    /** `handleKeyDown`, with the parent storing what `onChange` reports. */
    method HandleKeyDown(key: Key)
      modifies this
      ensures TagState(tags, input) == KeyDown(TagState(old(tags), old(input)), key)
      ensures old(NoDuplicates(tags)) ==> NoDuplicates(tags)
    {
      if NoDuplicates(tags) {
        KeyDownKeepsNoDuplicates(TagState(tags, input), key);
      }
      if key == Enter && input != "" {
        if input !in tags {
          tags := tags + [input];
        }
        input := "";
      } else if key == Backspace && input == "" && |tags| > 0 {
        tags := tags[..|tags| - 1];
      }
    }

    /** `removeTag` */
    method RemoveTagAction(tag: string)
      modifies this`tags
      ensures tags == RemoveTag(old(tags), tag)
      ensures old(NoDuplicates(tags)) ==> NoDuplicates(tags)
    {
      if NoDuplicates(tags) {
        RemoveKeepsNoDuplicates(tags, tag);
      }
      tags := RemoveTag(tags, tag);
    }
  }
}
