/**
 The environment given to a process: the wrapper's own variables, overridden by the command's, overridden
 by those of its file, and passed on as "key=value" strings. Strings are sequences of characters.
 */
module Environment {
  import opened Wrappers

  datatype Pair = Pair(key: string, value: string)

  // ---------- One entry ----------

  /** The text before and after the first '='. */
  function Split(e: string): Option<Pair> {
    if e == [] then None
    else if e[0] == '=' then Some(Pair([], e[1..]))
    else
      match Split(e[1..])
      case None => None
      case Some(p) => Some(Pair([e[0]] + p.key, p.value))
  }

  function Entry(key: string, value: string): string {
    key + "=" + value
  }

  lemma EntryOfRest(c: char, key: string, value: string)
    ensures Entry([c] + key, value) == [c] + Entry(key, value)
  {
  }

  lemma {:induction false} SplitMeaning(e: string)
    ensures Split(e).None? <==> '=' !in e
    ensures Split(e).Some? ==> '=' !in Split(e).value.key && e == Entry(Split(e).value.key, Split(e).value.value)
  {
    if e != [] {
      assert e == [e[0]] + e[1..];
      if e[0] == '=' {
        assert Entry([], e[1..]) == e;
      } else {
        hide Entry;
        SplitMeaning(e[1..]);
        if Split(e[1..]).Some? {
          EntryOfRest(e[0], Split(e[1..]).value.key, Split(e[1..]).value.value);
        }
      }
    }
  }

  lemma EntryParts(key: string, value: string)
    ensures key == "" ==> Entry(key, value)[0] == '=' && Entry(key, value)[1..] == value
    ensures key != "" ==> Entry(key, value)[0] == key[0] && Entry(key, value)[1..] == Entry(key[1..], value)
  {
  }

  lemma {:induction false} SplitPlainKey(key: string, value: string)
    requires '=' !in key
    ensures Split(Entry(key, value)) == Some(Pair(key, value))
  {
    EntryParts(key, value);
    assert Entry(key, value) != [];
    hide Entry;
    if key != [] {
      assert key[0] in key && [key[0]] + key[1..] == key;
      SplitPlainKey(key[1..], value);
    }
  }

  /** An entry splits back into its key and value if and only if the key holds no '='. */
  lemma SplitEntry(key: string, value: string)
    ensures Split(Entry(key, value)) == Some(Pair(key, value)) <==> '=' !in key
  {
    if '=' !in key {
      SplitPlainKey(key, value);
    }
    SplitMeaning(Entry(key, value));
  }

  /** `parseEnv`: the two parts, or nothing. */
  method ParseEnv(e: string) returns (kv: seq<string>)
    ensures kv == match Split(e) case None => [] case Some(p) => [p.key, p.value]
  {
    for i := 0 to |e|
      invariant '=' !in e[..i]
    {
      if e[i] == '=' {
        assert e == Entry(e[..i], e[i + 1..]);
        SplitEntry(e[..i], e[i + 1..]);
        return [e[..i], e[i + 1..]];
      }
    }
    assert e[..|e|] == e;
    SplitMeaning(e);
    return [];
  }

  function RemoveQuotes(s: string): string {
    if |s| > 1 && s[0] == '"' && s[|s| - 1] == '"' then s[1..|s| - 1] else s
  }

  /** White space as `unicode.IsSpace` has it. */
  predicate IsSpace(c: char) {
    || c in "\t\n\r " || c as int in {0x0B, 0x0C, 0x85, 0xA0, 0x1680, 0x2028, 0x2029, 0x202F, 0x205F, 0x3000}
    || 0x2000 <= c as int <= 0x200A
  }

  function TrimLeft(s: string): string {
    if s != [] && IsSpace(s[0]) then TrimLeft(s[1..]) else s
  }

  function TrimRight(s: string): string {
    if s != [] && IsSpace(s[|s| - 1]) then TrimRight(s[..|s| - 1]) else s
  }

  function TrimSpace(s: string): string {
    TrimRight(TrimLeft(s))
  }

  /** One pair of surrounding double quotes goes; any other text, a lone quote included, stays. */
  lemma QuotesRemoved(s: string)
    ensures RemoveQuotes("\"" + s + "\"") == s
    ensures RemoveQuotes(s) != s <==> exists inner: string :: s == "\"" + inner + "\""
  {
    assert RemoveQuotes("\"" + s + "\"") == s;
    if RemoveQuotes(s) != s {
      assert s == "\"" + s[1..|s| - 1] + "\"";
    }
  }

  lemma {:induction false} TrimLeftMeaning(s: string) returns (cut: nat)
    ensures cut <= |s| && TrimLeft(s) == s[cut..] && forall i | 0 <= i < cut :: IsSpace(s[i])
    ensures TrimLeft(s) != [] ==> !IsSpace(TrimLeft(s)[0])
  {
    cut := 0;
    if s != [] && IsSpace(s[0]) {
      cut := TrimLeftMeaning(s[1..]);
      assert s[1..][cut..] == s[cut + 1..];
      assert forall i | 1 <= i < cut + 1 :: s[i] == s[1..][i - 1];
      cut := cut + 1;
    }
  }

  lemma {:induction false} TrimRightMeaning(s: string) returns (end: nat)
    ensures end <= |s| && TrimRight(s) == s[..end] && forall i | end <= i < |s| :: IsSpace(s[i])
    ensures TrimRight(s) != [] ==> !IsSpace(TrimRight(s)[|TrimRight(s)| - 1])
  {
    end := |s|;
    if s != [] && IsSpace(s[|s| - 1]) {
      end := TrimRightMeaning(s[..|s| - 1]);
      assert s[..|s| - 1][..end] == s[..end];
    }
  }

  /** Trimming cuts off white space at both ends, all of it, and nothing else. */
  lemma Trimmed(s: string) returns (from: nat, to: nat)
    ensures from <= to <= |s| && TrimSpace(s) == s[from..to]
    ensures forall i | 0 <= i < from || to <= i < |s| :: IsSpace(s[i])
    ensures TrimSpace(s) != [] ==> !IsSpace(s[from]) && !IsSpace(s[to - 1])
  {
    from := TrimLeftMeaning(s);
    var end := TrimRightMeaning(s[from..]);
    to := from + end;
    assert s[from..][..end] == s[from..to];
    assert forall i | to <= i < |s| :: s[i] == s[from..][i - from];
  }

  /** What a line of the file defines, if anything. */
  function LinePair(line: string): Option<Pair> {
    if line == [] then None
    else
      match Split(TrimSpace(line))
      case None => None
      case Some(p) => Some(Pair(p.key, RemoveQuotes(p.value)))
  }

  predicate Blank(s: string) {
    forall c | c in s :: IsSpace(c)
  }

  lemma {:induction false} TrimLeftOf(before: string, s: string)
    requires Blank(before) && s != [] && !IsSpace(s[0])
    ensures TrimLeft(before + s) == s
  {
    if before == [] {
      assert before + s == s;
    } else {
      assert before[0] in before && forall c | c in before[1..] :: c in before;
      TrimLeftOf(before[1..], s);
      assert (before + s)[1..] == before[1..] + s;
    }
  }

  lemma {:induction false} TrimRightOf(s: string, after: string)
    requires Blank(after) && s != [] && !IsSpace(s[|s| - 1])
    ensures TrimRight(s + after) == s
  {
    if after == [] {
      assert s + after == s;
    } else {
      var n := |after| - 1;
      assert after[n] in after && forall c | c in after[..n] :: c in after;
      TrimRightOf(s, after[..n]);
      assert (s + after)[..|s + after| - 1] == s + after[..n];
    }
  }

  lemma TrimmedText(before: string, s: string, after: string)
    requires Blank(before) && Blank(after) && s != [] && !IsSpace(s[0]) && !IsSpace(s[|s| - 1])
    ensures TrimSpace(before + s + after) == s
  {
    assert before + s + after == before + (s + after);
    TrimLeftOf(before, s + after);
    TrimRightOf(s, after);
  }

  /** A line with white space around it that sets a key to some text, up to the quotes of the text. */
  lemma LineSets(before: string, key: string, text: string, after: string)
    requires Blank(before) && Blank(after) && '=' !in key
    requires (key != [] ==> !IsSpace(key[0])) && (text != [] ==> !IsSpace(text[|text| - 1]))
    ensures LinePair(before + Entry(key, text) + after) == Some(Pair(key, RemoveQuotes(text)))
  {
    var s := Entry(key, text);
    assert s != [] && s[0] == (if key == [] then '=' else key[0]);
    assert s[|s| - 1] == if text == [] then '=' else text[|text| - 1];
    TrimmedText(before, s, after);
    SplitPlainKey(key, text);
    assert before + s + after != [];
    hide Entry, Split, TrimSpace, RemoveQuotes, IsSpace, Blank;
  }

  /** White space around a line goes, and so do the double quotes around its value. */
  lemma QuotedLine(before: string, key: string, value: string, after: string)
    requires Blank(before) && Blank(after) && '=' !in key && (key != [] ==> !IsSpace(key[0]))
    ensures LinePair(before + (key + "=" + ("\"" + value + "\"")) + after) == Some(Pair(key, value))
  {
    var quoted := "\"" + value + "\"";
    assert quoted[|quoted| - 1] == '"';
    LineSets(before, key, quoted, after);
    QuotesRemoved(value);
    hide LinePair, RemoveQuotes, Blank;
  }

  /** A value that does not stand in double quotes is kept as it is, but for white space at its end. */
  lemma PlainLine(before: string, key: string, value: string, after: string)
    requires Blank(before) && Blank(after) && '=' !in key && (key != [] ==> !IsSpace(key[0]))
    requires (value != [] ==> !IsSpace(value[|value| - 1])) && !(exists inner: string :: value == "\"" + inner + "\"")
    ensures LinePair(before + (key + "=" + value) + after) == Some(Pair(key, value))
  {
    LineSets(before, key, value, after);
    QuotesRemoved(value);
    hide LinePair, RemoveQuotes, Blank;
  }

  /** A line defines nothing if and only if it holds no '='. */
  lemma LineDefinesNothing(line: string)
    ensures LinePair(line).None? <==> '=' !in line
  {
    if line != [] {
      var lo, hi := Trimmed(line);
      SplitMeaning(TrimSpace(line));
      hide TrimSpace, Split;
      assert TrimSpace(line) == line[lo..hi];
      if i :| 0 <= i < |line| && line[i] == '=' {
        assert lo <= i < hi;
        assert line[lo..hi][i - lo] == '=';
      }
    }
  }

  // ---------- Merging ----------

  function Pairs(f: string -> Option<Pair>, texts: seq<string>): seq<Option<Pair>> {
    seq(|texts|, i requires 0 <= i < |texts| => f(texts[i]))
  }

  /** The last definition of `key` among the pairs. */
  function LastOf(pairs: seq<Option<Pair>>, key: string): Option<string> {
    if pairs == [] then None
    else
      var p := pairs[|pairs| - 1];
      if p.Some? && p.value.key == key then Some(p.value.value) else LastOf(pairs[..|pairs| - 1], key)
  }

  predicate Defines(p: Option<Pair>, key: string) {
    p.Some? && p.value.key == key
  }

  /** Pair `i` defines the key, and no later one overrides it. */
  ghost predicate LastAt(pairs: seq<Option<Pair>>, i: nat, key: string) {
    i < |pairs| && Defines(pairs[i], key) && forall j | i < j < |pairs| :: !Defines(pairs[j], key)
  }

  ghost predicate NeverDefined(pairs: seq<Option<Pair>>, key: string) {
    forall i | 0 <= i < |pairs| :: !Defines(pairs[i], key)
  }

  lemma {:induction false} LastOfMeaning(pairs: seq<Option<Pair>>, key: string)
    ensures LastOf(pairs, key).None? <==> NeverDefined(pairs, key)
    ensures forall i: nat | LastAt(pairs, i, key) :: LastOf(pairs, key) == Some(pairs[i].value.value)
  {
    if pairs != [] {
      var n := |pairs| - 1;
      LastOfMeaning(pairs[..n], key);
      assert forall i | 0 <= i < n :: pairs[..n][i] == pairs[i];
      if !Defines(pairs[n], key) {
        assert NeverDefined(pairs, key) <==> NeverDefined(pairs[..n], key);
        forall i: nat | LastAt(pairs, i, key) ensures LastAt(pairs[..n], i, key) {
        }
      }
    }
  }

  function OrElse(first: Option<string>, second: Option<string>): Option<string> {
    if first.Some? then first else second
  }

  function Lookup(m: map<string, string>, key: string): Option<string> {
    if key in m then Some(m[key]) else None
  }

  /** The file named by the command: none, one that cannot be opened, or its lines. */
  datatype EnvFile = NoFile | Unopenable | Lines(lines: seq<string>)

  /** The value a process should see: the file's last definition, else the command's own, else the wrapper's last. */
  function Effective(environ: seq<string>, own: map<string, string>, file: EnvFile, key: string): Option<string> {
    OrElse(if file.Lines? then LastOf(Pairs(LinePair, file.lines), key) else None,
           OrElse(Lookup(own, key), LastOf(Pairs(Split, environ), key)))
  }

  /**
   Who wins. The last line of the file that defines a variable gives its value; if none does, the command's
   own value stands; if it has none, the wrapper's last; and otherwise the variable is not set.
   */
  lemma Precedence(environ: seq<string>, own: map<string, string>, lines: seq<string>, key: string)
    ensures var value, fromFile, inherited :=
        Effective(environ, own, Lines(lines), key), Pairs(LinePair, lines), Pairs(Split, environ);
      && (forall i: nat | LastAt(fromFile, i, key) :: value == Some(LinePair(lines[i]).value.value))
      && (NeverDefined(fromFile, key) && key in own ==> value == Some(own[key]))
      && (NeverDefined(fromFile, key) && key !in own ==>
            && (forall i: nat | LastAt(inherited, i, key) :: value == Some(Split(environ[i]).value.value))
            && (NeverDefined(inherited, key) ==> value.None?))
  {
    LastOfMeaning(Pairs(LinePair, lines), key);
    LastOfMeaning(Pairs(Split, environ), key);
    hide LastOf, LinePair, Split, NeverDefined;
  }

  ghost predicate HasValue(envs: map<string, string>, key: string, value: Option<string>) {
    Lookup(envs, key) == value
  }

  /** Applies the definitions in `texts`, in order, on top of `base`. */
  method Apply(f: string -> Option<Pair>, texts: seq<string>, base: map<string, string>)
    returns (envs: map<string, string>)
    ensures forall key :: HasValue(envs, key, OrElse(LastOf(Pairs(f, texts), key), Lookup(base, key)))
  {
    envs := base;
    var pairs := Pairs(f, texts);
    for i := 0 to |texts|
      invariant forall key :: HasValue(envs, key, OrElse(LastOf(pairs[..i], key), Lookup(base, key)))
    {
      assert pairs[..i + 1][..i] == pairs[..i];
      ghost var before := envs;
      var kv := f(texts[i]);
      if kv.Some? {
        envs := envs[kv.value.key := kv.value.value];
      }
      forall key ensures HasValue(envs, key, OrElse(LastOf(pairs[..i + 1], key), Lookup(base, key))) {
        assert HasValue(before, key, OrElse(LastOf(pairs[..i], key), Lookup(base, key)));
      }
    }
    assert pairs[..|texts|] == pairs;
  }

  /** `MergeEnvs`. It gives up (the wrapper exits) exactly when there is a file and it cannot be opened. */
  method MergeEnvs(environ: seq<string>, own: map<string, string>, file: EnvFile)
    returns (envs: Option<map<string, string>>)
    ensures envs.None? <==> file.Unopenable?
    ensures envs.Some? ==> forall key :: HasValue(envs.value, key, Effective(environ, own, file, key))
  {
    var merged := Apply(Split, environ, map[]);
    ghost var fromOs := merged;
    var todo := own.Keys;
    while todo != {}
      invariant todo <= own.Keys
      invariant forall key :: HasValue(merged, key,
        if key in own && key !in todo then Some(own[key]) else Lookup(fromOs, key))
      decreases |todo|
    {
      var key :| key in todo;
      merged := merged[key := own[key]];
      todo := todo - {key};
    }
    ghost var fromCommand := merged;
    assert forall key :: HasValue(fromCommand, key, OrElse(Lookup(own, key), LastOf(Pairs(Split, environ), key))) by {
      forall key ensures HasValue(fromCommand, key, OrElse(Lookup(own, key), LastOf(Pairs(Split, environ), key))) {
        assert HasValue(fromOs, key, OrElse(LastOf(Pairs(Split, environ), key), Lookup(map[], key)));
      }
    }
    if file.Unopenable? {
      return None;
    }
    if file.Lines? {
      merged := Apply(LinePair, file.lines, merged);
      forall key ensures HasValue(merged, key, Effective(environ, own, file, key)) {
        assert HasValue(fromCommand, key, OrElse(Lookup(own, key), LastOf(Pairs(Split, environ), key)));
        assert HasValue(merged, key, OrElse(LastOf(Pairs(LinePair, file.lines), key), Lookup(fromCommand, key)));
      }
    }
    return Some(merged);
  }

  // ---------- "key=value" strings ----------

  /** The list holds the entry of every key, in any order, and nothing else. */
  ghost predicate ListsEntries(list: seq<string>, envs: map<string, string>) {
    && |list| == |envs|
    && (forall key | key in envs :: Entry(key, envs[key]) in list)
    && (forall e | e in list :: exists key :: key in envs && e == Entry(key, envs[key]))
  }

  /** `ConvertEnvs`: the map is walked in whatever order it comes. */
  method ConvertEnvs(envs: map<string, string>) returns (list: seq<string>)
    ensures ListsEntries(list, envs)
  {
    list := [];
    var todo := envs.Keys;
    while todo != {}
      invariant todo <= envs.Keys && |list| + |todo| == |envs|
      invariant forall key | key in envs && key !in todo :: Entry(key, envs[key]) in list
      invariant forall e | e in list :: exists key :: key in envs && e == Entry(key, envs[key])
      decreases |todo|
    {
      var key :| key in todo;
      list := list + [Entry(key, envs[key])];
      todo := todo - {key};
    }
  }

  /** What a process that splits each string again ends up with. */
  function Reread(list: seq<string>): map<string, string> {
    if list == [] then map[]
    else
      var rest := Reread(list[..|list| - 1]);
      match Split(list[|list| - 1])
      case None => rest
      case Some(p) => rest[p.key := p.value]
  }

  lemma {:induction false} RereadHas(list: seq<string>, key: string)
    ensures key in Reread(list) <==> exists e :: e in list && Split(e).Some? && Split(e).value.key == key
    ensures key in Reread(list) ==> exists e :: e in list && Split(e) == Some(Pair(key, Reread(list)[key]))
    ensures key in Reread(list) ==> '=' !in key
  {
    if list != [] {
      RereadHas(list[..|list| - 1], key);
      var last := list[|list| - 1];
      assert last in list;
      SplitMeaning(last);
      assert forall e | e in list :: e in list[..|list| - 1] || e == last;
      assert forall e | e in list[..|list| - 1] :: e in list;
    }
  }

  /**
   Round trip: splitting every string again, in any order, gives back exactly the map that was converted,
   if and only if no key holds an '='.
   */
  lemma ConvertRoundTrip(envs: map<string, string>, list: seq<string>)
    requires ListsEntries(list, envs)
    ensures Reread(list) == envs <==> forall key | key in envs :: '=' !in key
  {
    forall key ensures key in Reread(list) ==> '=' !in key {
      RereadHas(list, key);
    }
    if forall key | key in envs :: '=' !in key {
      forall key ensures HasValue(Reread(list), key, Lookup(envs, key)) {
        RereadHas(list, key);
        if key in envs {
          SplitEntry(key, envs[key]);
        }
        if key in Reread(list) {
          var e :| e in list && Split(e) == Some(Pair(key, Reread(list)[key]));
          var k :| k in envs && e == Entry(k, envs[k]);
          SplitEntry(k, envs[k]);
        }
      }
      SameLookups(Reread(list), envs);
    }
  }

  lemma SameLookups(a: map<string, string>, b: map<string, string>)
    requires forall key :: HasValue(a, key, Lookup(b, key))
    ensures a == b
  {
    forall key ensures key in a <==> key in b
      ensures key in a ==> a[key] == b[key]
    {
      assert HasValue(a, key, Lookup(b, key));
    }
  }

  lemma {:induction false} LastOfHasNoEquals(pairs: seq<Option<Pair>>, key: string)
    requires forall p | p in pairs && p.Some? :: '=' !in p.value.key
    ensures LastOf(pairs, key).Some? ==> '=' !in key
  {
    if pairs != [] {
      assert pairs[|pairs| - 1] in pairs;
      assert forall p | p in pairs[..|pairs| - 1] :: p in pairs;
      LastOfHasNoEquals(pairs[..|pairs| - 1], key);
    }
  }

  lemma DefinedKeysArePlain(texts: seq<string>)
    ensures forall p | p in Pairs(Split, texts) && p.Some? :: '=' !in p.value.key
    ensures forall p | p in Pairs(LinePair, texts) && p.Some? :: '=' !in p.value.key
  {
    forall text | text in texts
      ensures Split(text).Some? ==> '=' !in Split(text).value.key
      ensures LinePair(text).Some? ==> '=' !in LinePair(text).value.key
    {
      SplitMeaning(text);
      SplitMeaning(TrimSpace(text));
    }
    hide Split, LinePair;
    forall f: string -> Option<Pair>, p | p in Pairs(f, texts) ensures exists text :: text in texts && p == f(text) {
      var i :| 0 <= i < |texts| && Pairs(f, texts)[i] == p;
      assert texts[i] in texts && p == f(texts[i]);
    }
  }

  /** A merged key holds an '=' only if it is one of the command's own. */
  lemma OnlyOwnKeysHoldEquals(environ: seq<string>, own: map<string, string>, file: EnvFile, key: string)
    requires '=' in key
    ensures Effective(environ, own, file, key) == Lookup(own, key)
  {
    DefinedKeysArePlain(environ);
    LastOfHasNoEquals(Pairs(Split, environ), key);
    if file.Lines? {
      DefinedKeysArePlain(file.lines);
      LastOfHasNoEquals(Pairs(LinePair, file.lines), key);
    }
  }

  /**
   The whole path of an environment. A process that splits its strings again sees, for every variable, the
   file's value over the command's over the wrapper's, if and only if the command's own keys hold no '='.
   */
  method BuildEnvironment(environ: seq<string>, own: map<string, string>, file: EnvFile)
    returns (list: Option<seq<string>>)
    ensures list.None? <==> file.Unopenable?
    ensures list.Some? ==>
      ((forall key :: HasValue(Reread(list.value), key, Effective(environ, own, file, key)))
       <==> forall key | key in own :: '=' !in key)
  {
    var merged := MergeEnvs(environ, own, file);
    if merged.None? {
      return None;
    }
    var envs := merged.value;
    var strings := ConvertEnvs(envs);
    ConvertRoundTrip(envs, strings);
    forall key ensures '=' in key ==> (key in envs <==> key in own) {
      assert HasValue(envs, key, Effective(environ, own, file, key));
      if '=' in key {
        OnlyOwnKeysHoldEquals(environ, own, file, key);
      }
    }
    if forall key :: HasValue(Reread(strings), key, Effective(environ, own, file, key)) {
      forall key ensures HasValue(Reread(strings), key, Lookup(envs, key)) {
        assert HasValue(envs, key, Effective(environ, own, file, key));
      }
      SameLookups(Reread(strings), envs);
    }
    return Some(strings);
  }
}
