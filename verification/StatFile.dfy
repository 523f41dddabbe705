/**
 The text of `/proc/<pid>/stat` and the columns the stats routine takes from it: everything after the first
 closing parenthesis, split at single spaces. The process name stands in parentheses before that and may
 hold anything, so a name with a closing parenthesis moves the columns.
 */
module StatFile {
  import opened Wrappers

  /** The text after the first ')', if there is one. */
  function AfterParen(text: string): Option<string> {
    if text == "" then None
    else if text[0] == ')' then Some(text[1..])
    else AfterParen(text[1..])
  }

  /** `strings.Split` at single spaces: one piece more than there are spaces. */
  function Columns(text: string): seq<string> {
    if text == "" then [""]
    else
      var rest := Columns(text[1..]);
      if text[0] == ' ' then [""] + rest
      else if rest == [] then [[text[0]]]
      else [[text[0]] + rest[0]] + rest[1..]
  }

  function Spaces(text: string): nat {
    if text == "" then 0 else Spaces(text[1..]) + if text[0] == ' ' then 1 else 0
  }

  lemma {:induction false} ColumnsCount(text: string)
    ensures |Columns(text)| == Spaces(text) + 1
  {
    if text != "" {
      ColumnsCount(text[1..]);
    }
  }

  lemma {:induction false} ColumnsOfWord(word: string)
    requires ' ' !in word
    ensures Columns(word) == [word]
  {
    if word != "" {
      assert word[0] in word && word == [word[0]] + word[1..];
      ColumnsOfWord(word[1..]);
    }
  }

  lemma {:induction false} ColumnsConcat(a: string, b: string)
    ensures Columns(a + " " + b) == Columns(a) + Columns(b)
  {
    var whole := a + " " + b;
    if a == "" {
      assert whole[1..] == b;
    } else {
      assert whole[0] == a[0] && whole[1..] == a[1..] + " " + b;
      ColumnsConcat(a[1..], b);
      ColumnsCount(a[1..]);
    }
  }

  function Joined(words: seq<string>): string
    requires words != []
  {
    if |words| == 1 then words[0] else words[0] + " " + Joined(words[1..])
  }

  lemma {:induction false} ColumnsOfJoined(words: seq<string>)
    requires words != [] && forall w | w in words :: ' ' !in w
    ensures Columns(Joined(words)) == words
  {
    assert words[0] in words;
    ColumnsOfWord(words[0]);
    if |words| > 1 {
      assert forall w | w in words[1..] :: w in words;
      ColumnsOfJoined(words[1..]);
      ColumnsConcat(words[0], Joined(words[1..]));
    }
  }

  lemma {:induction false} AfterParenConcat(before: string, after: string)
    requires ')' !in before
    ensures AfterParen(before + ")" + after) == Some(after)
  {
    var whole := before + ")" + after;
    if before == "" {
      assert whole[0] == ')' && whole[1..] == after;
    } else {
      assert before[0] in before;
      assert whole[0] == before[0] && whole[1..] == before[1..] + ")" + after;
      AfterParenConcat(before[1..], after);
    }
  }

  /** The line the kernel writes: the pid, the name in parentheses, and the fields after it. */
  function Line(pid: string, name: string, fields: seq<string>): string
    requires fields != []
  {
    pid + " (" + name + ") " + Joined(fields)
  }

  /** The position of the first ')' of the name, or its length. */
  function FirstParen(name: string): (at: nat)
    ensures at <= |name| && ')' !in name[..at] && (at < |name| ==> name[at] == ')')
  {
    if name == "" || name[0] == ')' then 0
    else
      var at := FirstParen(name[1..]) + 1;
      assert name[..at] == [name[0]] + name[1..][..at - 1];
      at
  }

  lemma {:induction false} AfterFirstParen(text: string)
    ensures ')' in text <==> FirstParen(text) < |text|
    ensures AfterParen(text) == if ')' in text then Some(text[FirstParen(text) + 1..]) else None
  {
    if text != "" && text[0] != ')' {
      AfterFirstParen(text[1..]);
      assert text == [text[0]] + text[1..];
    }
  }

  /** What of the name, with the parenthesis that ends it, lies after its first ')': nothing, if it holds none. */
  function NameTail(name: string): string {
    var at := FirstParen(name);
    if at == |name| then "" else name[at + 1..] + ")"
  }

  /**
   Where the fields are found. Field `k` is column `k + 1`, moved on by the spaces that the process's name
   holds after its first closing parenthesis; so the columns are the right ones if and only if there are none.
   */
  lemma FieldsFound(pid: string, name: string, fields: seq<string>)
    requires ')' !in pid && fields != [] && forall w | w in fields :: ' ' !in w
    ensures AfterParen(Line(pid, name, fields)).Some?
    ensures var columns := Columns(AfterParen(Line(pid, name, fields)).value);
      && |columns| == Spaces(NameTail(name)) + 1 + |fields|
      && columns[Spaces(NameTail(name)) + 1..] == fields
      && (columns[1..] == fields <==> Spaces(NameTail(name)) == 0)
    ensures ')' !in name ==> NameTail(name) == ""
  {
    var text := Line(pid, name, fields);
    var at := FirstParen(name);
    var before := pid + " (" + name[..at];
    if at == |name| {
      assert text == before + ")" + ("" + " " + Joined(fields));
      AfterParenConcat(before, "" + " " + Joined(fields));
      ColumnsConcat("", Joined(fields));
    } else {
      var tail := name[at + 1..] + ")";
      assert text == before + ")" + (tail + " " + Joined(fields));
      AfterParenConcat(before, tail + " " + Joined(fields));
      ColumnsConcat(tail, Joined(fields));
    }
    ColumnsCount(NameTail(name));
    ColumnsOfJoined(fields);
  }
}
