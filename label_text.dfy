/**
 * The label being typed in EDIT mode: what one key does to the text, and what a run of keys does.
 * ENTER and ESC, which leave the mode, are handled by the annotator itself.
 */
module LabelText {

  const Enter := 13
  const CtrlU := 21
  const Esc := 27
  const Del := 127

  /** The key codes that are typed into the label: ASCII 32 (space) to 126 (`~`). */
  predicate Printable(key: int) {
    32 <= key <= 126
  }

  /**
   * One key in EDIT mode, other than ENTER and ESC: CTRL-U clears the text, DEL drops the last
   * character (`substr(0, length() - 1)`, which on an empty string asks for the whole string),
   * a printable key is appended, and any other key is ignored.
   */
  function Typed(text: string, key: int): string {
    if key == CtrlU then ""
    else if key == Del then (if |text| == 0 then text else text[..|text| - 1])
    else if Printable(key) then text + [key as char]
    else text
  }

  /** One key: a printable key appends exactly its character; CTRL-U yields ""; DEL on "" does nothing; an unbound key changes nothing. */
  lemma TypedKeys(text: string, key: int)
    ensures Printable(key) ==> Typed(text, key) == text + [key as char] && |Typed(text, key)| == |text| + 1
    ensures key == CtrlU ==> Typed(text, key) == ""
    ensures key == Del ==> Typed("", key) == ""
    ensures key == Del && text != [] ==> Typed(text, key) + [text[|text| - 1]] == text
    ensures key != CtrlU && key != Del && !Printable(key) ==> Typed(text, key) == text
  {
  }

  /** A printable key followed by DEL restores the text. */
  lemma TypeThenDelete(text: string, key: int)
    requires Printable(key)
    ensures Typed(Typed(text, key), Del) == text
  {
  }

  /** The keys of a run, applied one after another in order. */
  function TypedAll(text: string, keys: seq<int>): string
    decreases |keys|
  {
    if keys == [] then text else TypedAll(Typed(text, keys[0]), keys[1..])
  }

  predicate AllPrintable(keys: seq<int>) {
    forall i :: 0 <= i < |keys| ==> Printable(keys[i])
  }

  /** The characters of a run of printable keys. */
  function Chars(keys: seq<int>): (s: string)
    requires AllPrintable(keys)
    ensures |s| == |keys|
    decreases |keys|
  {
    if keys == [] then [] else [keys[0] as char] + Chars(keys[1..])
  }

  /** A run of `n` DEL keys. */
  function Deletes(n: nat): (keys: seq<int>)
    ensures |keys| == n && forall i :: 0 <= i < n ==> keys[i] == Del
  {
    if n == 0 then [] else [Del] + Deletes(n - 1)
  }

  /** Typing a run of printable keys appends their characters, in order. */
  lemma {:induction false} TypingAppends(text: string, keys: seq<int>)
    requires AllPrintable(keys)
    ensures TypedAll(text, keys) == text + Chars(keys)
    decreases |keys|
  {
    if keys != [] {
      assert AllPrintable(keys[1..]) by {
        forall i | 0 <= i < |keys| - 1 ensures Printable(keys[1..][i]) {
          assert keys[1..][i] == keys[i + 1];
        }
      }
      TypingAppends(text + [keys[0] as char], keys[1..]);
      assert text + [keys[0] as char] + Chars(keys[1..]) == text + Chars(keys);
    }
  }

  /** As many DEL keys as the characters added after `text` erase exactly those characters. */
  lemma {:induction false} DeletingErases(text: string, tail: string)
    ensures TypedAll(text + tail, Deletes(|tail|)) == text
    decreases |tail|
  {
    if tail != [] {
      var shorter := tail[..|tail| - 1];
      assert (text + tail)[..|text + tail| - 1] == text + shorter;
      assert Deletes(|tail|)[1..] == Deletes(|shorter|);
      DeletingErases(text, shorter);
    }
  }

  /** Typing any run of printable keys and then as many DELs gives back the original text. */
  lemma TypeThenErase(text: string, keys: seq<int>)
    requires AllPrintable(keys)
    ensures TypedAll(TypedAll(text, keys), Deletes(|keys|)) == text
  {
    TypingAppends(text, keys);
    DeletingErases(text, Chars(keys));
  }
}
