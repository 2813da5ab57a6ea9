/** src/config.rs: the KEY=VALUE file updater. */
module ConfigFile {
  import opened Text

  type Update = (string, string)

  function Assign(u: Update): string {
    u.0 + "=" + u.1
  }

  /** `str::lines`: each line without its "\n" and without one "\r" just before it. */
  function Chomp(line: string): string {
    if line == "" || line[|line| - 1] != '\n' then line
    else
      var body := line[..|line| - 1];
      if body != "" && body[|body| - 1] == '\r' then body[..|body| - 1] else body
  }

  function TextLines(text: string): (lines: seq<string>)
    ensures |lines| == |Lines(text)|
    decreases |text|
  {
    if text == "" then [] else
      var n := LineLength(text);
      [Chomp(text[..n])] + TextLines(text[n..])
  }

  /** A trimmed line matches an update when it starts with the key and "=". */
  predicate StartsWithKey(trimmed: string, key: string) {
    key + "=" <= trimmed
  }

  /** The index of the first update that a trimmed line matches, or |updates|. */
  function FirstMatch(trimmed: string, updates: seq<Update>): (i: nat)
    ensures i <= |updates|
  {
    if updates == [] || StartsWithKey(trimmed, updates[0].0) then 0 else 1 + FirstMatch(trimmed, updates[1..])
  }

  function UpdateLine(line: string, updates: seq<Update>): string {
    var i := FirstMatch(Trim(line), updates);
    if i < |updates| then Assign(updates[i]) else line
  }

  function Rewrite(lines: seq<string>, updates: seq<Update>): (out: seq<string>)
    ensures |out| == |lines|
  {
    if lines == [] then [] else [UpdateLine(lines[0], updates)] + Rewrite(lines[1..], updates)
  }

  /** The keys that some line was matched for. */
  function Found(lines: seq<string>, updates: seq<Update>): set<string> {
    if lines == [] then {} else
      var i := FirstMatch(Trim(lines[0]), updates);
      (if i < |updates| then {updates[i].0} else {}) + Found(lines[1..], updates)
  }

  function Missing(updates: seq<Update>, found: set<string>): seq<string> {
    if updates == [] then []
    else if updates[0].0 in found then Missing(updates[1..], found)
    else [Assign(updates[0])] + Missing(updates[1..], found)
  }

  function UpdateLines(lines: seq<string>, updates: seq<Update>): seq<string> {
    Rewrite(lines, updates) + Missing(updates, Found(lines, updates))
  }

  function ToText(lines: seq<string>): string {
    Join(lines, '\n') + "\n"
  }

  /** What `update_config_file` makes of a file's text. */
  function UpdateText(text: string, updates: seq<Update>): string {
    ToText(UpdateLines(TextLines(text), updates))
  }

  // ---------- The program ----------

  method UpdateConfigFile(content: string, updates: seq<Update>) returns (updated: string)
    ensures updated == UpdateText(content, updates)
  {
    var lines := TextLines(content);
    var found;
    lines, found := UpdateExisting(lines, updates);
    lines := AddMissing(lines, updates, found);
    updated := Join(lines, '\n') + "\n";
  }

  /** The first loop: rewrite the lines in place and note the keys found. */
  method UpdateExisting(before: seq<string>, updates: seq<Update>) returns (lines: seq<string>, found: set<string>)
    ensures lines == Rewrite(before, updates) && found == Found(before, updates)
  {
    lines, found := before, {};
    for i := 0 to |before|
      invariant Swept(before, updates, i, lines, found)
    {
      var trimmed := Trim(lines[i]);
      var j := FindUpdate(trimmed, updates);
      SweepLine(before, updates, i, lines, found, j);
      if j < |updates| {
        var (key, value) := updates[j];
        lines := lines[i := key + "=" + value];
        found := found + {key};
      }
    }
    SweptAll(before, updates, lines, found);
  }

  /** The first i lines are rewritten and their keys noted; the rest is untouched. */
  ghost predicate Swept(before: seq<string>, updates: seq<Update>, i: nat, lines: seq<string>, found: set<string>) {
    && i <= |before| == |lines| && lines[i..] == before[i..]
    && lines[..i] + Rewrite(before[i..], updates) == Rewrite(before, updates)
    && found + Found(before[i..], updates) == Found(before, updates)
  }

  lemma SweptAll(before: seq<string>, updates: seq<Update>, lines: seq<string>, found: set<string>)
    requires Swept(before, updates, |before|, lines, found)
    ensures lines == Rewrite(before, updates) && found == Found(before, updates)
  {
  }

  lemma SweepLine(before: seq<string>, updates: seq<Update>, i: nat, lines: seq<string>, found: set<string>, j: nat)
    requires i < |before| && Swept(before, updates, i, lines, found)
    requires j == FirstMatch(Trim(lines[i]), updates)
    ensures j == |updates| ==> Swept(before, updates, i + 1, lines, found)
    ensures j < |updates| ==> Swept(before, updates, i + 1, lines[i := Assign(updates[j])], found + {updates[j].0})
  {
    UnrollAt(before, updates, i, lines);
    var x := UpdateLine(before[i], updates);
    PutAndSplit(lines, i, x, Rewrite(before[i + 1..], updates));
    var added := if j < |updates| then {updates[j].0} else {};
    assert found + (added + Found(before[i + 1..], updates)) == found + added + Found(before[i + 1..], updates);
  }

  lemma UnrollAt(before: seq<string>, updates: seq<Update>, i: nat, lines: seq<string>)
    requires i < |before| == |lines| && lines[i..] == before[i..]
    ensures lines[i] == before[i]
    ensures Rewrite(before[i..], updates) == [UpdateLine(before[i], updates)] + Rewrite(before[i + 1..], updates)
    ensures var m := FirstMatch(Trim(before[i]), updates);
            Found(before[i..], updates)
            == (if m < |updates| then {updates[m].0} else {}) + Found(before[i + 1..], updates)
    ensures before[i..][1..] == before[i + 1..]
  {
    assert lines[i..][0] == before[i..][0];
    assert before[i..][1..] == before[i + 1..];
  }

  lemma PutAndSplit<T>(s: seq<T>, i: nat, x: T, rest: seq<T>)
    requires i < |s|
    ensures s[i := x][..i + 1] + rest == s[..i] + ([x] + rest)
    ensures s[i := x][i + 1..] == s[i..][1..]
    ensures s[i := s[i]] == s
  {
  }

  /** Its inner loop: the first update whose key the trimmed line starts with. */
  method FindUpdate(trimmed: string, updates: seq<Update>) returns (j: nat)
    ensures j == FirstMatch(trimmed, updates)
  {
    j := 0;
    while j < |updates| && !(updates[j].0 + "=" <= trimmed)
      invariant j <= |updates|
      invariant FirstMatch(trimmed, updates) == j + FirstMatch(trimmed, updates[j..])
    {
      assert updates[j..][1..] == updates[j + 1..];
      j := j + 1;
    }
  }

  /** The second loop: append the updates whose key was not found. */
  method AddMissing(before: seq<string>, updates: seq<Update>, found: set<string>) returns (lines: seq<string>)
    ensures lines == before + Missing(updates, found)
  {
    lines := before;
    for k := 0 to |updates|
      invariant lines + Missing(updates[k..], found) == before + Missing(updates, found)
    {
      assert updates[k..][1..] == updates[k + 1..];
      if updates[k].0 !in found {
        lines := lines + [updates[k].0 + "=" + updates[k].1];
      }
    }
  }

  // ---------- Keys ----------

  /** The key a line assigns to: the text before the first "=", trimmed at the line's ends. */
  function KeyOf(line: string): Option<string> {
    match SplitOnce(Trim(line), '=')
    case Some(kv) => Some(kv.0)
    case None => None
  }

  predicate PlainKey(key: string) {
    '=' !in key && (key == "" || !IsWhitespace(key[0]))
  }

  predicate PlainKeys(updates: seq<Update>) {
    if updates == [] then true else PlainKey(updates[0].0) && PlainKeys(updates[1..])
  }

  /** The value of the first update for a key. */
  function Lookup(updates: seq<Update>, key: string): Option<string> {
    if updates == [] then None
    else if updates[0].0 == key then Some(updates[0].1)
    else Lookup(updates[1..], key)
  }

  /** Two different "="-free keys cannot both match one line: the line's key is the only candidate. */
  lemma OnlyItsKeyMatches(trimmed: string, key: string)
    requires '=' !in key
    ensures StartsWithKey(trimmed, key) <==> (SplitOnce(trimmed, '=').Some? && SplitOnce(trimmed, '=').value.0 == key)
  {
    if StartsWithKey(trimmed, key) {
      var rest := trimmed[|key| + 1..];
      assert trimmed == key + ['='] + rest by {
        assert trimmed[..|key| + 1] == key + "=";
      }
      SplitOnceOf(key, '=', rest);
    } else if SplitOnce(trimmed, '=').Some? {
      var kv := SplitOnce(trimmed, '=').value;
      assert trimmed == kv.0 + "=" + kv.1;
      assert trimmed[..|kv.0| + 1] == kv.0 + "=";
    }
  }

  /** What the updater writes for a key is a line that assigns to that key, if and only if the key does not
      start with white space. */
  lemma OwnLineMatches(key: string, value: string)
    ensures StartsWithKey(Trim(Assign((key, value))), key) <==> key == "" || !IsWhitespace(key[0])
  {
    var line := Assign((key, value));
    if key == "" || !IsWhitespace(key[0]) {
      assert TrimStart(line) == line;
      TrimEndKeeps(key + "=", value);
      assert Trim(line) == key + "=" + TrimEnd(value);
    } else {
      var t := Trim(line);
      TrimStartIs(line);
      TrimEndIs(TrimStart(line));
      assert t != "" ==> t[0] == TrimStart(line)[0];
    }
  }

  lemma KeyOfAssign(key: string, value: string)
    requires PlainKey(key)
    ensures KeyOf(Assign((key, value))) == Some(key)
  {
    OwnLineMatches(key, value);
    OnlyItsKeyMatches(Trim(Assign((key, value))), key);
  }

  /** The new text of a line, by key. */
  function Put(line: string, updates: seq<Update>): string {
    match KeyOf(line)
    case None => line
    case Some(key) =>
      match Lookup(updates, key)
      case None => line
      case Some(value) => Assign((key, value))
  }

  /** Scanning the updates in order is a look-up by key. */
  lemma {:induction false} FirstMatchIsLookup(trimmed: string, updates: seq<Update>)
    requires PlainKeys(updates)
    ensures var i := FirstMatch(trimmed, updates);
            var kv := SplitOnce(trimmed, '=');
            if kv.Some? && Lookup(updates, kv.value.0).Some?
            then i < |updates| && updates[i] == (kv.value.0, Lookup(updates, kv.value.0).value)
            else i == |updates|
  {
    if updates != [] {
      OnlyItsKeyMatches(trimmed, updates[0].0);
      FirstMatchIsLookup(trimmed, updates[1..]);
    }
  }

  lemma UpdateLineIsPut(line: string, updates: seq<Update>)
    requires PlainKeys(updates)
    ensures UpdateLine(line, updates) == Put(line, updates)
  {
    FirstMatchIsLookup(Trim(line), updates);
  }

  function Keys(updates: seq<Update>): set<string> {
    if updates == [] then {} else {updates[0].0} + Keys(updates[1..])
  }

  lemma {:induction false} LookupInKeys(updates: seq<Update>, key: string)
    ensures Lookup(updates, key).Some? <==> key in Keys(updates)
  {
    if updates != [] {
      LookupInKeys(updates[1..], key);
    }
  }

  /** All the keys that lines assign to. */
  function KeySet(lines: seq<string>): set<string> {
    if lines == [] then {}
    else (match KeyOf(lines[0]) case Some(key) => {key} case None => {}) + KeySet(lines[1..])
  }

  lemma {:induction false} FoundIsKeySet(lines: seq<string>, updates: seq<Update>)
    requires PlainKeys(updates)
    ensures Found(lines, updates) == KeySet(lines) * Keys(updates)
  {
    if lines != [] {
      var trimmed := Trim(lines[0]);
      FirstMatchIsLookup(trimmed, updates);
      FoundIsKeySet(lines[1..], updates);
      if KeyOf(lines[0]).Some? {
        LookupInKeys(updates, KeyOf(lines[0]).value);
      }
    }
  }

  /** Only the updates' own keys matter for what is missing. */
  lemma {:induction false} MissingDepends(updates: seq<Update>, a: set<string>, b: set<string>)
    requires a * Keys(updates) == b * Keys(updates)
    ensures Missing(updates, a) == Missing(updates, b)
  {
    if updates != [] {
      var key, rest := updates[0].0, updates[1..];
      assert key in a <==> key in a * Keys(updates);
      assert key in b <==> key in b * Keys(updates);
      assert a * Keys(rest) == (a * Keys(updates)) * Keys(rest);
      assert b * Keys(rest) == (b * Keys(updates)) * Keys(rest);
      MissingDepends(rest, a, b);
    }
  }

  lemma UpdateByKey(lines: seq<string>, updates: seq<Update>)
    requires PlainKeys(updates)
    ensures UpdateLines(lines, updates) == Rewrite(lines, updates) + Missing(updates, KeySet(lines))
  {
    FoundIsKeySet(lines, updates);
    MissingDepends(updates, Found(lines, updates), KeySet(lines));
  }

  // ---------- Composition ----------

  /** u1 overridden by u2: u1's order with u2's values, then what only u2 has. */
  function Replace(u1: seq<Update>, u2: seq<Update>): seq<Update> {
    if u1 == [] then [] else
      var value := match Lookup(u2, u1[0].0) case Some(v) => v case None => u1[0].1;
      [(u1[0].0, value)] + Replace(u1[1..], u2)
  }

  function Only(u2: seq<Update>, keys: set<string>): seq<Update> {
    if u2 == [] then []
    else if u2[0].0 in keys then Only(u2[1..], keys)
    else [u2[0]] + Only(u2[1..], keys)
  }

  function Override(u1: seq<Update>, u2: seq<Update>): seq<Update> {
    Replace(u1, u2) + Only(u2, Keys(u1))
  }

  lemma {:induction false} LookupReplace(u1: seq<Update>, u2: seq<Update>, key: string)
    ensures Lookup(Replace(u1, u2), key) ==
            if key !in Keys(u1) then None else if Lookup(u2, key).Some? then Lookup(u2, key) else Lookup(u1, key)
  {
    if u1 != [] {
      LookupReplace(u1[1..], u2, key);
    }
  }

  lemma {:induction false} LookupAppend(a: seq<Update>, b: seq<Update>, key: string)
    ensures Lookup(a + b, key) == if Lookup(a, key).Some? then Lookup(a, key) else Lookup(b, key)
  {
    if a == [] {
      assert a + b == b;
    } else {
      assert (a + b)[1..] == a[1..] + b;
      LookupAppend(a[1..], b, key);
    }
  }

  lemma {:induction false} LookupOnly(u2: seq<Update>, keys: set<string>, key: string)
    ensures Lookup(Only(u2, keys), key) == if key in keys then None else Lookup(u2, key)
  {
    if u2 != [] {
      LookupOnly(u2[1..], keys, key);
      if u2[0].0 !in keys {
        assert Only(u2, keys)[1..] == Only(u2[1..], keys);
      }
    }
  }

  /** Reading the overridden updates: u2's value if it has one, else u1's. */
  lemma LookupOverride(u1: seq<Update>, u2: seq<Update>, key: string)
    ensures Lookup(Override(u1, u2), key) == if Lookup(u2, key).Some? then Lookup(u2, key) else Lookup(u1, key)
  {
    LookupAppend(Replace(u1, u2), Only(u2, Keys(u1)), key);
    LookupReplace(u1, u2, key);
    LookupOnly(u2, Keys(u1), key);
    LookupInKeys(u1, key);
  }

  lemma {:induction false} PlainOverride(u1: seq<Update>, u2: seq<Update>)
    requires PlainKeys(u1) && PlainKeys(u2)
    ensures PlainKeys(Override(u1, u2))
  {
    PlainReplace(u1, u2);
    PlainOnly(u2, Keys(u1));
    PlainAppend(Replace(u1, u2), Only(u2, Keys(u1)));
  }

  lemma {:induction false} PlainReplace(u1: seq<Update>, u2: seq<Update>)
    requires PlainKeys(u1)
    ensures PlainKeys(Replace(u1, u2))
    ensures Keys(Replace(u1, u2)) == Keys(u1)
  {
    if u1 != [] {
      PlainReplace(u1[1..], u2);
    }
  }

  lemma {:induction false} PlainOnly(u2: seq<Update>, keys: set<string>)
    requires PlainKeys(u2)
    ensures PlainKeys(Only(u2, keys))
  {
    if u2 != [] {
      PlainOnly(u2[1..], keys);
      if u2[0].0 !in keys {
        assert Only(u2, keys)[1..] == Only(u2[1..], keys);
      }
    }
  }

  lemma {:induction false} PlainAppend(a: seq<Update>, b: seq<Update>)
    requires PlainKeys(a) && PlainKeys(b)
    ensures PlainKeys(a + b)
  {
    if a == [] {
      assert a + b == b;
    } else {
      assert (a + b)[1..] == a[1..] + b;
      PlainAppend(a[1..], b);
    }
  }

  /** One line, updated twice. */
  lemma PutTwice(line: string, u1: seq<Update>, u2: seq<Update>)
    requires PlainKeys(u1) && PlainKeys(u2)
    ensures UpdateLine(UpdateLine(line, u1), u2) == UpdateLine(line, Override(u1, u2))
    ensures KeyOf(UpdateLine(line, u1)) == KeyOf(line)
  {
    UpdateLineIsPut(line, u1);
    UpdateLineIsPut(Put(line, u1), u2);
    PlainOverride(u1, u2);
    UpdateLineIsPut(line, Override(u1, u2));
    if KeyOf(line).Some? {
      var key := KeyOf(line).value;
      LookupOverride(u1, u2, key);
      if Lookup(u1, key).Some? {
        PlainWhenFound(u1, key);
        KeyOfAssign(key, Lookup(u1, key).value);
      }
    }
  }

  lemma {:induction false} PlainWhenFound(updates: seq<Update>, key: string)
    requires PlainKeys(updates) && Lookup(updates, key).Some?
    ensures PlainKey(key)
  {
    if updates[0].0 != key {
      PlainWhenFound(updates[1..], key);
    }
  }

  lemma {:induction false} RewriteTwice(lines: seq<string>, u1: seq<Update>, u2: seq<Update>)
    requires PlainKeys(u1) && PlainKeys(u2)
    ensures Rewrite(Rewrite(lines, u1), u2) == Rewrite(lines, Override(u1, u2))
    ensures KeySet(Rewrite(lines, u1)) == KeySet(lines)
  {
    if lines != [] {
      var line, rest := UpdateLine(lines[0], u1), Rewrite(lines[1..], u1);
      PutTwice(lines[0], u1, u2);
      RewriteTwice(lines[1..], u1, u2);
      Heads(line, rest, u2);
    }
  }

  lemma Heads(line: string, rest: seq<string>, updates: seq<Update>)
    ensures Rewrite([line] + rest, updates) == [UpdateLine(line, updates)] + Rewrite(rest, updates)
    ensures KeySet([line] + rest) == (match KeyOf(line) case Some(key) => {key} case None => {}) + KeySet(rest)
  {
    assert ([line] + rest)[1..] == rest;
  }

  lemma {:induction false} RewriteAppend(a: seq<string>, b: seq<string>, updates: seq<Update>)
    ensures Rewrite(a + b, updates) == Rewrite(a, updates) + Rewrite(b, updates)
  {
    if a == [] {
      assert a + b == b;
    } else {
      assert (a + b)[1..] == a[1..] + b;
      RewriteAppend(a[1..], b, updates);
    }
  }

  lemma {:induction false} KeySetAppend(a: seq<string>, b: seq<string>)
    ensures KeySet(a + b) == KeySet(a) + KeySet(b)
  {
    if a == [] {
      assert a + b == b;
    } else {
      assert (a + b)[1..] == a[1..] + b;
      KeySetAppend(a[1..], b);
    }
  }

  lemma {:induction false} MissingAppend(a: seq<Update>, b: seq<Update>, found: set<string>)
    ensures Missing(a + b, found) == Missing(a, found) + Missing(b, found)
  {
    if a == [] {
      assert a + b == b;
    } else {
      assert (a + b)[1..] == a[1..] + b;
      MissingAppend(a[1..], b, found);
    }
  }

  lemma Tail<T>(s: seq<T>, x: T, rest: seq<T>)
    requires s == [x] + rest
    ensures s[0] == x && s[1..] == rest
  {
  }

  lemma UpdateOwnLine(u: Update, u2: seq<Update>)
    requires PlainKey(u.0) && PlainKeys(u2)
    ensures KeyOf(Assign(u)) == Some(u.0)
    ensures UpdateLine(Assign(u), u2)
         == Assign((u.0, match Lookup(u2, u.0) case Some(v) => v case None => u.1))
  {
    KeyOfAssign(u.0, u.1);
    UpdateLineIsPut(Assign(u), u2);
  }

  /** The lines appended for u1, when u2 comes after. */
  lemma {:induction false} RewriteMissing(u1: seq<Update>, u2: seq<Update>, found: set<string>)
    requires PlainKeys(u1) && PlainKeys(u2)
    ensures Rewrite(Missing(u1, found), u2) == Missing(Replace(u1, u2), found)
    ensures KeySet(Missing(u1, found)) == Keys(u1) - found
  {
    if u1 != [] {
      var u, rest := u1[0], u1[1..];
      RewriteMissing(rest, u2, found);
      if u.0 !in found {
        Heads(Assign(u), Missing(rest, found), u2);
        UpdateOwnLine(u, u2);
        Tail(Replace(u1, u2), Replace(u1, u2)[0], Replace(rest, u2));
      } else {
        Tail(Replace(u1, u2), Replace(u1, u2)[0], Replace(rest, u2));
      }
    }
  }

  /** What u2 has to append after u1 is what only u2 has. */
  lemma {:induction false} MissingOnly(u2: seq<Update>, keys: set<string>, found: set<string>)
    ensures Missing(u2, found + keys) == Missing(Only(u2, keys), found)
  {
    if u2 != [] {
      MissingOnly(u2[1..], keys, found);
      if u2[0].0 !in keys {
        assert Only(u2, keys)[1..] == Only(u2[1..], keys);
      }
    }
  }

  /** Composition: updating by u1 and then by u2 is updating once by u1 overridden by u2, whatever the lines. */
  lemma UpdateTwice(lines: seq<string>, u1: seq<Update>, u2: seq<Update>)
    requires PlainKeys(u1) && PlainKeys(u2)
    ensures UpdateLines(UpdateLines(lines, u1), u2) == UpdateLines(lines, Override(u1, u2))
  {
    var have := KeySet(lines);
    var first, added := Rewrite(lines, u1), Missing(u1, have);
    UpdateByKey(lines, u1);
    UpdateByKey(first + added, u2);
    PlainOverride(u1, u2);
    UpdateByKey(lines, Override(u1, u2));
    RewriteBoth(lines, u1, u2, have);
    MissingBoth(lines, u1, u2);
    Associative(Rewrite(lines, Override(u1, u2)), Missing(Replace(u1, u2), have), Missing(Only(u2, Keys(u1)), have));
  }

  lemma RewriteBoth(lines: seq<string>, u1: seq<Update>, u2: seq<Update>, have: set<string>)
    requires PlainKeys(u1) && PlainKeys(u2)
    ensures Rewrite(Rewrite(lines, u1) + Missing(u1, have), u2)
         == Rewrite(lines, Override(u1, u2)) + Missing(Replace(u1, u2), have)
  {
    RewriteAppend(Rewrite(lines, u1), Missing(u1, have), u2);
    RewriteTwice(lines, u1, u2);
    RewriteMissing(u1, u2, have);
  }

  lemma MissingBoth(lines: seq<string>, u1: seq<Update>, u2: seq<Update>)
    requires PlainKeys(u1) && PlainKeys(u2)
    ensures var have := KeySet(lines);
            && Missing(u2, KeySet(Rewrite(lines, u1) + Missing(u1, have))) == Missing(Only(u2, Keys(u1)), have)
            && Missing(Override(u1, u2), have) == Missing(Replace(u1, u2), have) + Missing(Only(u2, Keys(u1)), have)
  {
    var have := KeySet(lines);
    RewriteTwice(lines, u1, u2);
    RewriteMissing(u1, u2, have);
    KeySetAppend(Rewrite(lines, u1), Missing(u1, have));
    assert have + (Keys(u1) - have) == have + Keys(u1);
    MissingOnly(u2, Keys(u1), have);
    MissingAppend(Replace(u1, u2), Only(u2, Keys(u1)), have);
  }

  // ---------- Idempotence ----------

  /** No two updates give one key different values. */
  predicate NoConflict(updates: seq<Update>) {
    forall i, j :: 0 <= i < |updates| && 0 <= j < |updates| && updates[i].0 == updates[j].0 ==>
        updates[i].1 == updates[j].1
  }

  /** The first update for a key that occurs. */
  lemma {:induction false} LookupWhere(updates: seq<Update>, key: string) returns (i: nat)
    requires key in Keys(updates)
    ensures i < |updates| && updates[i].0 == key && Lookup(updates, key) == Some(updates[i].1)
  {
    if updates[0].0 == key {
      i := 0;
    } else {
      i := LookupWhere(updates[1..], key);
      i := i + 1;
    }
  }

  lemma {:induction false} KeyAt(updates: seq<Update>, i: nat)
    requires i < |updates|
    ensures updates[i].0 in Keys(updates)
    decreases i
  {
    if i > 0 {
      KeyAt(updates[1..], i - 1);
    }
  }

  lemma LookupAt(updates: seq<Update>, i: nat)
    requires NoConflict(updates) && i < |updates|
    ensures Lookup(updates, updates[i].0) == Some(updates[i].1)
  {
    KeyAt(updates, i);
    var j := LookupWhere(updates, updates[i].0);
  }

  lemma {:induction false} MissingAll(updates: seq<Update>)
    ensures |Missing(updates, {})| == |updates|
    ensures forall i :: 0 <= i < |updates| ==> Missing(updates, {})[i] == Assign(updates[i])
  {
    if updates != [] {
      MissingAll(updates[1..]);
    }
  }

  lemma OfNoLines(updates: seq<Update>)
    ensures UpdateLines([], updates) == Missing(updates, {})
  {
    assert Rewrite([], updates) == [];
  }

  lemma {:induction false} FirstMatchIs(trimmed: string, updates: seq<Update>)
    ensures var m := FirstMatch(trimmed, updates);
            && (m < |updates| ==> StartsWithKey(trimmed, updates[m].0))
            && (forall k :: 0 <= k < m ==> !StartsWithKey(trimmed, updates[k].0))
  {
    if updates != [] && !StartsWithKey(trimmed, updates[0].0) {
      FirstMatchIs(trimmed, updates[1..]);
    }
  }

  /** No earlier update has the same key. */
  predicate FirstOfKey(updates: seq<Update>, i: nat)
    requires i < |updates|
  {
    forall k :: 0 <= k < i ==> updates[k].0 != updates[i].0
  }

  /** The line written for an update is taken for an update that writes the same line, and for that very update if
      it is the first with its key. */
  predicate KeepsItsLine(updates: seq<Update>, i: nat)
    requires i < |updates|
  {
    var j := FirstMatch(Trim(Assign(updates[i])), updates);
    j < |updates| && Assign(updates[j]) == Assign(updates[i]) && (FirstOfKey(updates, i) ==> j == i)
  }

  predicate SelfConsistent(updates: seq<Update>) {
    forall i :: 0 <= i < |updates| ==> KeepsItsLine(updates, i)
  }

  lemma UpdateLineWith(line: string, updates: seq<Update>, m: nat)
    requires m == FirstMatch(Trim(line), updates) < |updates|
    ensures UpdateLine(line, updates) == Assign(updates[m])
  {
  }

  lemma {:induction false} FoundAt(lines: seq<string>, updates: seq<Update>, n: nat)
    requires n < |lines| && FirstMatch(Trim(lines[n]), updates) < |updates|
    ensures updates[FirstMatch(Trim(lines[n]), updates)].0 in Found(lines, updates)
    decreases n
  {
    if n > 0 {
      FoundAt(lines[1..], updates, n - 1);
    }
  }

  /** A key that was found was found through its first update. */
  lemma {:induction false} FoundWhere(lines: seq<string>, updates: seq<Update>, key: string) returns (n: nat, m: nat)
    requires key in Found(lines, updates)
    ensures n < |lines| && m == FirstMatch(Trim(lines[n]), updates) < |updates|
    ensures updates[m].0 == key && FirstOfKey(updates, m)
  {
    m := FirstMatch(Trim(lines[0]), updates);
    if m < |updates| && updates[m].0 == key {
      n := 0;
      FirstMatchIs(Trim(lines[0]), updates);
    } else {
      n, m := FoundWhere(lines[1..], updates, key);
      n := n + 1;
    }
  }

  lemma {:induction false} MissingHas(updates: seq<Update>, found: set<string>, i: nat) returns (n: nat)
    requires i < |updates| && updates[i].0 !in found
    ensures n < |Missing(updates, found)| && Missing(updates, found)[n] == Assign(updates[i])
    decreases i
  {
    if i == 0 {
      n := 0;
    } else {
      n := MissingHas(updates[1..], found, i - 1);
      if updates[0].0 !in found {
        n := n + 1;
      }
    }
  }

  lemma {:induction false} MissingNone(updates: seq<Update>, found: set<string>)
    ensures Missing(updates, found) == [] <==> Keys(updates) <= found
  {
    if updates != [] {
      MissingNone(updates[1..], found);
    }
  }

  lemma {:induction false} FirstWithKey(updates: seq<Update>, key: string) returns (i: nat)
    requires key in Keys(updates)
    ensures i < |updates| && updates[i].0 == key && FirstOfKey(updates, i)
  {
    if updates[0].0 == key {
      i := 0;
    } else {
      i := FirstWithKey(updates[1..], key);
      i := i + 1;
    }
  }

  lemma OwnLineStays(updates: seq<Update>, i: nat)
    requires i < |updates| && KeepsItsLine(updates, i)
    ensures UpdateLine(Assign(updates[i]), updates) == Assign(updates[i])
  {
  }

  lemma RewrittenStays(line: string, updates: seq<Update>)
    requires SelfConsistent(updates)
    ensures UpdateLine(UpdateLine(line, updates), updates) == UpdateLine(line, updates)
  {
    var m := FirstMatch(Trim(line), updates);
    if m < |updates| {
      UpdateLineWith(line, updates, m);
      OwnLineStays(updates, m);
    }
  }

  lemma UpdatedStays(lines: seq<string>, updates: seq<Update>)
    requires SelfConsistent(updates)
    ensures Rewrite(UpdateLines(lines, updates), updates) == UpdateLines(lines, updates)
  {
    var out := UpdateLines(lines, updates);
    forall n | 0 <= n < |out| ensures Rewrite(out, updates)[n] == out[n] {
      RewriteAt(out, updates, n);
      if n < |lines| {
        RewriteAt(lines, updates, n);
        RewrittenStays(lines[n], updates);
      } else {
        var j := MissingAt(updates, Found(lines, updates), n - |lines|);
        OwnLineStays(updates, j);
      }
    }
  }

  lemma UpdatedIsFound(lines: seq<string>, updates: seq<Update>, key: string)
    requires SelfConsistent(updates) && key in Keys(updates)
    ensures key in Found(UpdateLines(lines, updates), updates)
  {
    var out := UpdateLines(lines, updates);
    if key in Found(lines, updates) {
      var n, m := FoundWhere(lines, updates, key);
      RewriteAt(lines, updates, n);
      UpdateLineWith(lines[n], updates, m);
      assert KeepsItsLine(updates, m);
      FoundAt(out, updates, n);
    } else {
      var i := FirstWithKey(updates, key);
      var n := MissingHas(updates, Found(lines, updates), i);
      assert KeepsItsLine(updates, i) && out[|lines| + n] == Assign(updates[i]);
      FoundAt(out, updates, |lines| + n);
    }
  }

  lemma ConsistentIsIdempotent(lines: seq<string>, updates: seq<Update>)
    requires SelfConsistent(updates)
    ensures UpdateLines(UpdateLines(lines, updates), updates) == UpdateLines(lines, updates)
  {
    var out := UpdateLines(lines, updates);
    UpdatedStays(lines, updates);
    forall key <- Keys(updates) ensures key in Found(out, updates) {
      UpdatedIsFound(lines, updates, key);
    }
    MissingNone(updates, Found(out, updates));
  }

  /** On an empty file, where every update writes its line, nothing but consistency gives idempotence. */
  lemma IdempotentOnNothing(updates: seq<Update>)
    requires UpdateLines(UpdateLines([], updates), updates) == UpdateLines([], updates)
    ensures SelfConsistent(updates)
  {
    var out := UpdateLines([], updates);
    OfNoLines(updates);
    MissingAll(updates);
    assert |Rewrite(out, updates)| == |out|;
    assert Rewrite(out, updates) == out;
    MissingNone(updates, Found(out, updates));
    forall i | 0 <= i < |updates| ensures KeepsItsLine(updates, i) {
      KeyAt(updates, i);
      KeptOnNothing(updates, out, i);
    }
  }

  /** The first update with a found key keeps its line. */
  lemma FirstKeptOnNothing(updates: seq<Update>, out: seq<string>, key: string) returns (m: nat)
    requires |out| == |updates| && forall n :: 0 <= n < |out| ==> out[n] == Assign(updates[n])
    requires Rewrite(out, updates) == out && key in Found(out, updates)
    ensures m < |updates| && updates[m].0 == key && FirstOfKey(updates, m)
    ensures FirstMatch(Trim(Assign(updates[m])), updates) == m
  {
    var n;
    n, m := FoundWhere(out, updates, key);
    RewriteAt(out, updates, n);
    UpdateLineWith(out[n], updates, m);
  }

  lemma KeptOnNothing(updates: seq<Update>, out: seq<string>, i: nat)
    requires |out| == |updates| && forall n :: 0 <= n < |out| ==> out[n] == Assign(updates[n])
    requires Rewrite(out, updates) == out
    requires i < |updates| && updates[i].0 in Found(out, updates)
    ensures KeepsItsLine(updates, i)
  {
    var key := updates[i].0;
    var m := FirstKeptOnNothing(updates, out, key);
    FirstMatchIs(Trim(Assign(updates[m])), updates);
    OwnLineMatches(key, updates[m].1);
    OwnLineMatches(key, updates[i].1);
    FirstMatchIs(Trim(out[i]), updates);
    RewriteAt(out, updates, i);
    UpdateLineWith(out[i], updates, FirstMatch(Trim(out[i]), updates));
  }

  /** For any list of updates, with any keys: updating again changes no file exactly when every line that the
      updates write is read back as it was meant. */
  lemma IdempotentExactly(updates: seq<Update>)
    ensures (forall lines :: UpdateLines(UpdateLines(lines, updates), updates) == UpdateLines(lines, updates))
       <==> SelfConsistent(updates)
  {
    if SelfConsistent(updates) {
      forall lines ensures UpdateLines(UpdateLines(lines, updates), updates) == UpdateLines(lines, updates) {
        ConsistentIsIdempotent(lines, updates);
      }
    } else if UpdateLines(UpdateLines([], updates), updates) == UpdateLines([], updates) {
      IdempotentOnNothing(updates);
    }
  }

  /** The line of an update with a plain key is taken for the first update with this key. */
  lemma PlainOwnMatch(updates: seq<Update>, i: nat)
    requires PlainKeys(updates) && i < |updates|
    ensures var j := FirstMatch(Trim(Assign(updates[i])), updates);
            && j <= i && updates[j].0 == updates[i].0
            && Lookup(updates, updates[i].0) == Some(updates[j].1)
  {
    var key := updates[i].0;
    PlainAt(updates, i);
    KeyOfAssign(key, updates[i].1);
    KeyAt(updates, i);
    LookupInKeys(updates, key);
    FirstMatchIsLookup(Trim(Assign(updates[i])), updates);
    FirstMatchIs(Trim(Assign(updates[i])), updates);
    OwnLineMatches(key, updates[i].1);
  }

  lemma AssignInjective(key: string, v: string, w: string)
    requires Assign((key, v)) == Assign((key, w))
    ensures v == w
  {
    assert Assign((key, v))[|key| + 1..] == v;
    assert Assign((key, w))[|key| + 1..] == w;
  }

  lemma PlainKeepsExactly(updates: seq<Update>, i: nat)
    requires PlainKeys(updates) && i < |updates|
    ensures KeepsItsLine(updates, i) <==> Lookup(updates, updates[i].0) == Some(updates[i].1)
  {
    PlainOwnMatch(updates, i);
    var j := FirstMatch(Trim(Assign(updates[i])), updates);
    if Assign(updates[j]) == Assign(updates[i]) {
      AssignInjective(updates[i].0, updates[j].1, updates[i].1);
    }
  }

  /** Plain keys are consistent exactly when no key is given two values. */
  lemma PlainIdempotentExactly(updates: seq<Update>)
    requires PlainKeys(updates)
    ensures (forall lines :: UpdateLines(UpdateLines(lines, updates), updates) == UpdateLines(lines, updates))
       <==> NoConflict(updates)
  {
    IdempotentExactly(updates);
    forall i | 0 <= i < |updates|
      ensures KeepsItsLine(updates, i) <==> Lookup(updates, updates[i].0) == Some(updates[i].1)
    {
      PlainKeepsExactly(updates, i);
    }
    if NoConflict(updates) {
      forall i | 0 <= i < |updates| ensures KeepsItsLine(updates, i) {
        LookupAt(updates, i);
      }
    }
  }

  /** A single update is consistent exactly when its key has no leading white space: it may well have a "=". */
  lemma OneUpdateIdempotentExactly(u: Update)
    ensures (forall lines :: UpdateLines(UpdateLines(lines, [u]), [u]) == UpdateLines(lines, [u]))
       <==> u.0 == "" || !IsWhitespace(u.0[0])
  {
    IdempotentExactly([u]);
    OwnLineMatches(u.0, u.1);
    FirstMatchIs(Trim(Assign(u)), [u]);
    assert KeepsItsLine([u], 0) <==> u.0 == "" || !IsWhitespace(u.0[0]);
  }

  /** In any list, a key with leading white space is appended anew at every update. */
  lemma LeadingWhitespaceBreaks(updates: seq<Update>, i: nat)
    requires i < |updates| && updates[i].0 != "" && IsWhitespace(updates[i].0[0])
    ensures UpdateLines(UpdateLines([], updates), updates) != UpdateLines([], updates)
  {
    KeyAt(updates, i);
    var k := FirstWithKey(updates, updates[i].0);
    OwnLineMatches(updates[k].0, updates[k].1);
    FirstMatchIs(Trim(Assign(updates[k])), updates);
    assert !KeepsItsLine(updates, k);
    if UpdateLines(UpdateLines([], updates), updates) == UpdateLines([], updates) {
      IdempotentOnNothing(updates);
    }
  }

  /** In any list, a key that first occurs after another one and continues that one with "=" breaks it: its line is
      taken for an assignment to the shorter key next time. The other way round it need not. */
  lemma EqualsInKeyBreaks(updates: seq<Update>, i: nat, k: nat, rest: string)
    requires i < k < |updates| && FirstOfKey(updates, k)
    requires updates[k].0 == updates[i].0 + "=" + rest
    requires updates[i].0 == "" || !IsWhitespace(updates[i].0[0])
    ensures UpdateLines(UpdateLines([], updates), updates) != UpdateLines([], updates)
  {
    var key, value := updates[i].0, rest + "=" + updates[k].1;
    assert Assign(updates[k]) == Assign((key, value));
    OwnLineMatches(key, value);
    FirstMatchIs(Trim(Assign(updates[k])), updates);
    assert !KeepsItsLine(updates, k);
    if UpdateLines(UpdateLines([], updates), updates) == UpdateLines([], updates) {
      IdempotentOnNothing(updates);
    }
  }

  // ---------- The file as a map ----------

  /** After the update every line with an updated key holds its new value. */
  lemma UpdatedLinesHoldValue(lines: seq<string>, updates: seq<Update>, key: string, i: nat)
    requires PlainKeys(updates) && NoConflict(updates) && key in Keys(updates)
    requires i < |UpdateLines(lines, updates)| && KeyOf(UpdateLines(lines, updates)[i]) == Some(key)
    ensures Lookup(updates, key).Some?
    ensures UpdateLines(lines, updates)[i] == Assign((key, Lookup(updates, key).value))
  {
    LookupInKeys(updates, key);
    if i < |lines| {
      RewriteAt(lines, updates, i);
      UpdateLineIsPut(lines[i], updates);
      PutTwice(lines[i], updates, updates);
    } else {
      var j := MissingAt(updates, Found(lines, updates), i - |lines|);
      PlainAt(updates, j);
      KeyOfAssign(updates[j].0, updates[j].1);
      LookupAt(updates, j);
    }
  }

  lemma {:induction false} RewriteAt(lines: seq<string>, updates: seq<Update>, i: nat)
    requires i < |lines|
    ensures Rewrite(lines, updates)[i] == UpdateLine(lines[i], updates)
    decreases i
  {
    Tail(Rewrite(lines, updates), UpdateLine(lines[0], updates), Rewrite(lines[1..], updates));
    if i > 0 {
      RewriteAt(lines[1..], updates, i - 1);
    }
  }

  lemma {:induction false} MissingAt(updates: seq<Update>, found: set<string>, i: nat) returns (j: nat)
    requires i < |Missing(updates, found)|
    ensures j < |updates| && Missing(updates, found)[i] == Assign(updates[j])
  {
    if updates[0].0 in found {
      j := MissingAt(updates[1..], found, i);
      j := j + 1;
    } else if i == 0 {
      j := 0;
    } else {
      j := MissingAt(updates[1..], found, i - 1);
      j := j + 1;
    }
  }

  lemma {:induction false} PlainAt(updates: seq<Update>, i: nat)
    requires PlainKeys(updates) && i < |updates|
    ensures PlainKey(updates[i].0)
    decreases i
  {
    if i > 0 {
      PlainAt(updates[1..], i - 1);
    }
  }

  /** Every updated key occurs. */
  lemma UpdatedKeysOccur(lines: seq<string>, updates: seq<Update>)
    requires PlainKeys(updates)
    ensures KeySet(UpdateLines(lines, updates)) == KeySet(lines) + Keys(updates)
  {
    UpdateByKey(lines, updates);
    RewriteTwice(lines, updates, updates);
    RewriteMissing(updates, updates, KeySet(lines));
    KeySetAppend(Rewrite(lines, updates), Missing(updates, KeySet(lines)));
  }

  /** The lines that assign to none of the keys, in order. */
  function Others(lines: seq<string>, keys: set<string>): seq<string> {
    if lines == [] then []
    else if KeyOf(lines[0]).Some? && KeyOf(lines[0]).value in keys then Others(lines[1..], keys)
    else [lines[0]] + Others(lines[1..], keys)
  }

  /** All other lines keep their exact text and their order, and no such line is added. */
  lemma OtherLinesKept(lines: seq<string>, updates: seq<Update>)
    requires PlainKeys(updates)
    ensures Others(UpdateLines(lines, updates), Keys(updates)) == Others(lines, Keys(updates))
  {
    OthersAppend(Rewrite(lines, updates), Missing(updates, Found(lines, updates)), Keys(updates));
    OthersRewrite(lines, updates);
    OthersMissing(updates, Found(lines, updates), Keys(updates));
  }

  lemma {:induction false} OthersAppend(a: seq<string>, b: seq<string>, keys: set<string>)
    ensures Others(a + b, keys) == Others(a, keys) + Others(b, keys)
  {
    if a == [] {
      assert a + b == b;
    } else {
      assert (a + b)[1..] == a[1..] + b;
      OthersAppend(a[1..], b, keys);
    }
  }

  lemma {:induction false} OthersRewrite(lines: seq<string>, updates: seq<Update>)
    requires PlainKeys(updates)
    ensures Others(Rewrite(lines, updates), Keys(updates)) == Others(lines, Keys(updates))
  {
    if lines != [] {
      PutTwice(lines[0], updates, updates);
      UpdateLineIsPut(lines[0], updates);
      if KeyOf(lines[0]).Some? {
        LookupInKeys(updates, KeyOf(lines[0]).value);
      }
      OthersRewrite(lines[1..], updates);
      Tail(Rewrite(lines, updates), UpdateLine(lines[0], updates), Rewrite(lines[1..], updates));
    }
  }

  lemma {:induction false} OthersMissing(updates: seq<Update>, found: set<string>, keys: set<string>)
    requires PlainKeys(updates) && Keys(updates) <= keys
    ensures Others(Missing(updates, found), keys) == []
  {
    if updates != [] {
      OthersMissing(updates[1..], found, keys);
      if updates[0].0 !in found {
        KeyOfAssign(updates[0].0, updates[0].1);
        Tail(Missing(updates, found), Assign(updates[0]), Missing(updates[1..], found));
      }
    }
  }

  // ---------- Text and lines ----------

  /** A line that survives being written and read back. */
  predicate Clean(line: string) {
    '\n' !in line && (line == "" || line[|line| - 1] != '\r')
  }

  predicate AllClean(lines: seq<string>) {
    if lines == [] then true else Clean(lines[0]) && AllClean(lines[1..])
  }

  predicate NewlineFree(lines: seq<string>) {
    if lines == [] then true else '\n' !in lines[0] && NewlineFree(lines[1..])
  }

  lemma ToTextCons(lines: seq<string>)
    requires |lines| > 1
    ensures ToText(lines) == lines[0] + "\n" + ToText(lines[1..])
  {
    assert lines[0] + ['\n'] + Join(lines[1..], '\n') + "\n" == lines[0] + "\n" + (Join(lines[1..], '\n') + "\n");
  }

  lemma ReadFirstLine(line: string, rest: string)
    requires '\n' !in line
    ensures TextLines(line + "\n" + rest) == [Chomp(line + "\n")] + TextLines(rest)
  {
    var text := line + "\n" + rest;
    FindFirst(line, '\n', rest);
    assert text == line + ['\n'] + rest;
    assert LineLength(text) == |line| + 1;
    assert text[..|line| + 1] == line + "\n" && text[|line| + 1..] == rest;
  }

  lemma ChompOf(line: string)
    ensures Chomp(line + "\n") == if line != "" && line[|line| - 1] == '\r' then line[..|line| - 1] else line
  {
    assert (line + "\n")[..|line|] == line;
  }

  lemma {:induction false} ReadBack(lines: seq<string>)
    requires NewlineFree(lines) && lines != []
    ensures |TextLines(ToText(lines))| == |lines|
    ensures forall i :: 0 <= i < |lines| ==> TextLines(ToText(lines))[i] == Chomp(lines[i] + "\n")
  {
    if |lines| == 1 {
      assert lines[0] + "\n" + "" == ToText(lines);
      ReadFirstLine(lines[0], "");
    } else {
      ToTextCons(lines);
      ReadFirstLine(lines[0], ToText(lines[1..]));
      ReadBack(lines[1..]);
    }
  }

  lemma ChompedFirstLine(text: string)
    requires text != ""
    ensures '\n' !in Chomp(text[..LineLength(text)])
  {
    FindIsFirst(text, '\n');
    var m := Find(text, '\n');
    if m < |text| {
      assert text[..m + 1] == text[..m] + "\n";
      ChompOf(text[..m]);
    } else {
      assert text[..m] == text;
    }
  }

  lemma {:induction false} TextLinesNewlineFree(text: string)
    ensures NewlineFree(TextLines(text))
    decreases |text|
  {
    if text != "" {
      var n := LineLength(text);
      TextLinesNewlineFree(text[n..]);
      ChompedFirstLine(text);
      NewlineFreeCons(Chomp(text[..n]), TextLines(text[n..]));
    }
  }

  lemma NewlineFreeCons(line: string, rest: seq<string>)
    requires '\n' !in line && NewlineFree(rest)
    ensures NewlineFree([line] + rest)
  {
    assert ([line] + rest)[1..] == rest;
  }

  lemma {:induction false} CleanAt(lines: seq<string>, i: nat)
    requires AllClean(lines) && i < |lines|
    ensures Clean(lines[i])
    decreases i
  {
    if i > 0 {
      CleanAt(lines[1..], i - 1);
    }
  }

  lemma {:induction false} CleanFromAt(lines: seq<string>)
    requires forall i :: 0 <= i < |lines| ==> Clean(lines[i])
    ensures AllClean(lines)
  {
    if lines != [] {
      CleanFromAt(lines[1..]);
    }
  }

  lemma {:induction false} CleanIsNewlineFree(lines: seq<string>)
    requires AllClean(lines)
    ensures NewlineFree(lines)
  {
    if lines != [] {
      CleanIsNewlineFree(lines[1..]);
    }
  }

  lemma {:induction false} NewlineFreeAt(lines: seq<string>, i: nat)
    requires NewlineFree(lines) && i < |lines|
    ensures '\n' !in lines[i]
    decreases i
  {
    if i > 0 {
      NewlineFreeAt(lines[1..], i - 1);
    }
  }

  lemma CleanReadBack(lines: seq<string>)
    requires lines != [] && AllClean(lines)
    ensures TextLines(ToText(lines)) == lines
  {
    CleanIsNewlineFree(lines);
    ReadBack(lines);
    forall i | 0 <= i < |lines|
      ensures TextLines(ToText(lines))[i] == lines[i]
    {
      CleanAt(lines, i);
      ChompOf(lines[i]);
    }
  }

  lemma ReadBackIsClean(lines: seq<string>)
    requires lines != [] && TextLines(ToText(lines)) == lines
    ensures AllClean(lines)
  {
    TextLinesNewlineFree(ToText(lines));
    ReadBack(lines);
    forall i | 0 <= i < |lines|
      ensures Clean(lines[i])
    {
      ChompOf(lines[i]);
      NewlineFreeAt(lines, i);
    }
    CleanFromAt(lines);
  }

  /** Writing lines and reading the text back returns them exactly when there is a line and all are clean. */
  lemma RoundTripExactly(lines: seq<string>)
    ensures TextLines(ToText(lines)) == lines <==> lines != [] && AllClean(lines)
  {
    if lines == [] {
      assert ToText([]) == "\n";
    } else if AllClean(lines) {
      CleanReadBack(lines);
    } else if TextLines(ToText(lines)) == lines {
      ReadBackIsClean(lines);
    }
  }

  lemma OnceIsSomething(lines: seq<string>, updates: seq<Update>)
    requires lines != [] || updates != []
    ensures UpdateLines(lines, updates) != []
  {
    if lines == [] {
      OfNoLines(updates);
      MissingAll(updates);
    }
  }

  /** A text and updates that leave nothing for reading back to lose: no line keeps a carriage return at its end, no
      assignment has a newline or ends in one, and there is something to write. */
  predicate CleanInput(text: string, updates: seq<Update>) {
    && AllClean(TextLines(text))
    && (forall i :: 0 <= i < |updates| ==> Clean(Assign(updates[i])))
    && (text != "" || updates != [])
  }

  lemma CleanOnce(text: string, updates: seq<Update>)
    requires CleanInput(text, updates)
    ensures TextLines(UpdateText(text, updates)) == UpdateLines(TextLines(text), updates)
  {
    UpdateKeepsClean(TextLines(text), updates);
    OnceIsSomething(TextLines(text), updates);
    RoundTripExactly(UpdateLines(TextLines(text), updates));
  }

  /** The composition law for files, down to the bytes. */
  lemma UpdateTextTwice(text: string, u1: seq<Update>, u2: seq<Update>)
    requires PlainKeys(u1) && PlainKeys(u2) && CleanInput(text, u1)
    ensures UpdateText(UpdateText(text, u1), u2) == UpdateText(text, Override(u1, u2))
  {
    CleanOnce(text, u1);
    UpdateTwice(TextLines(text), u1, u2);
  }

  /** A second update by the same consistent list writes the same bytes. */
  lemma UpdateTextIdempotent(text: string, updates: seq<Update>)
    requires SelfConsistent(updates) && CleanInput(text, updates)
    ensures UpdateText(UpdateText(text, updates), updates) == UpdateText(text, updates)
  {
    CleanOnce(text, updates);
    ConsistentIsIdempotent(TextLines(text), updates);
  }

  // ---------- Other ways to end a line ----------

  lemma LastLineRead(line: string)
    requires line != "" && '\n' !in line
    ensures TextLines(line) == [line]
  {
    FindIsFirst(line, '\n');
    assert line[..|line|] == line && line[|line|..] == "";
    assert line[|line| - 1] in line;
    assert TextLines("") == [];
  }

  /** A last line needs no newline: it is read whole, even with a carriage return at its end. */
  lemma {:induction false} UnclosedTextRead(lines: seq<string>)
    requires lines != [] && AllClean(lines[..|lines| - 1])
    requires lines[|lines| - 1] != "" && '\n' !in lines[|lines| - 1]
    ensures TextLines(Join(lines, '\n')) == lines
  {
    if |lines| == 1 {
      LastLineRead(lines[0]);
    } else {
      var rest := lines[1..];
      assert lines[..|lines| - 1][0] == lines[0] && lines[..|lines| - 1][1..] == rest[..|rest| - 1];
      UnclosedTextRead(rest);
      ReadFirstLine(lines[0], Join(rest, '\n'));
      ChompOf(lines[0]);
      assert Join(lines, '\n') == lines[0] + "\n" + Join(rest, '\n');
    }
  }

  /** So a newline at the end of the file makes no difference to an update. */
  lemma UnclosedFileSameUpdate(lines: seq<string>, updates: seq<Update>)
    requires lines != [] && AllClean(lines) && lines[|lines| - 1] != ""
    ensures UpdateText(Join(lines, '\n'), updates) == UpdateText(Join(lines, '\n') + "\n", updates)
    ensures UpdateText(Join(lines, '\n'), updates) == Join(UpdateLines(lines, updates), '\n') + "\n"
  {
    CleanPrefix(lines, |lines| - 1);
    CleanAt(lines, |lines| - 1);
    UnclosedTextRead(lines);
    RoundTripExactly(lines);
  }

  lemma {:induction false} CleanPrefix(lines: seq<string>, n: nat)
    requires AllClean(lines) && n <= |lines|
    ensures AllClean(lines[..n])
    decreases n
  {
    if n > 0 {
      CleanPrefix(lines[1..], n - 1);
      assert lines[..n][1..] == lines[1..][..n - 1];
    }
  }

  /** Lines closed by a carriage return and a newline. */
  function CrlfText(lines: seq<string>): string {
    if lines == [] then "" else lines[0] + "\r\n" + CrlfText(lines[1..])
  }

  /** Of a carriage return before the newline just one is dropped. */
  lemma {:induction false} CrlfTextRead(lines: seq<string>)
    requires NewlineFree(lines)
    ensures TextLines(CrlfText(lines)) == lines
  {
    if lines != [] {
      var line := lines[0] + "\r";
      assert CrlfText(lines) == line + "\n" + CrlfText(lines[1..]);
      ReadFirstLine(line, CrlfText(lines[1..]));
      ChompOf(line);
      assert line[..|line| - 1] == lines[0];
      CrlfTextRead(lines[1..]);
    }
  }

  /** A file without lines, updated by nothing, becomes a newline. */
  lemma EmptyFileBecomesNewline()
    ensures UpdateText("", []) == "\n"
  {
    OfNoLines([]);
  }

  lemma UpdateLineIs(line: string, updates: seq<Update>)
    ensures UpdateLine(line, updates) == line
         || exists j :: 0 <= j < |updates| && UpdateLine(line, updates) == Assign(updates[j])
  {
  }

  /** The lines an update writes are clean when the lines and the assignments it was given are. */
  lemma UpdateKeepsClean(lines: seq<string>, updates: seq<Update>)
    requires AllClean(lines) && forall i :: 0 <= i < |updates| ==> Clean(Assign(updates[i]))
    ensures AllClean(UpdateLines(lines, updates))
  {
    var out := UpdateLines(lines, updates);
    forall i | 0 <= i < |out|
      ensures Clean(out[i])
    {
      if i < |lines| {
        RewriteAt(lines, updates, i);
        CleanAt(lines, i);
        UpdateLineIs(lines[i], updates);
      } else {
        var j := MissingAt(updates, Found(lines, updates), i - |lines|);
      }
    }
    CleanFromAt(out);
  }

  // ---------- What a reader of the file finds ----------

  /** The lines that assign to a key. */
  function LinesFor(lines: seq<string>, key: string): set<string> {
    if lines == [] then {} else (if KeyOf(lines[0]) == Some(key) then {lines[0]} else {}) + LinesFor(lines[1..], key)
  }

  /** Read line by line, a text assigns to a key, and every line that does holds the value. */
  predicate Holds(text: string, key: string, value: string) {
    LinesFor(TextLines(text), key) == {key + "=" + value}
  }

  lemma {:induction false} LinesForIs(lines: seq<string>, key: string)
    ensures forall i :: 0 <= i < |lines| && KeyOf(lines[i]) == Some(key) ==> lines[i] in LinesFor(lines, key)
    ensures forall line <- LinesFor(lines, key) ::
              exists i :: 0 <= i < |lines| && lines[i] == line && KeyOf(line) == Some(key)
  {
    if lines != [] {
      LinesForIs(lines[1..], key);
      forall line <- LinesFor(lines[1..], key)
        ensures exists i :: 0 <= i < |lines| && lines[i] == line && KeyOf(line) == Some(key)
      {
        var i :| 0 <= i < |lines| - 1 && lines[1..][i] == line;
        assert lines[i + 1] == line;
      }
    }
  }

  lemma TrimWithReturn(body: string)
    ensures Trim(body + "\r") == Trim(body)
  {
    if body == "" {
      assert "\r"[1..] == "" && body + "\r" == "\r";
    } else if IsWhitespace(body[0]) {
      assert (body + "\r")[1..] == body[1..] + "\r";
      TrimWithReturn(body[1..]);
    } else {
      assert (body + "\r")[..|body|] == body;
    }
  }

  /** Losing its carriage return does not change a line's key. */
  lemma ChompKeepsKey(line: string)
    ensures KeyOf(Chomp(line + "\n")) == KeyOf(line)
  {
    ChompOf(line);
    if line != "" && line[|line| - 1] == '\r' {
      var body := line[..|line| - 1];
      assert line == body + "\r";
      TrimWithReturn(body);
    }
  }

  lemma {:induction false} KeySetWhere(lines: seq<string>, key: string) returns (i: nat)
    requires key in KeySet(lines)
    ensures i < |lines| && KeyOf(lines[i]) == Some(key)
  {
    if KeyOf(lines[0]) == Some(key) {
      i := 0;
    } else {
      i := KeySetWhere(lines[1..], key);
      i := i + 1;
    }
  }

  lemma {:induction false} NewlineFreeFromAt(lines: seq<string>)
    requires forall i :: 0 <= i < |lines| ==> '\n' !in lines[i]
    ensures NewlineFree(lines)
  {
    if lines != [] {
      NewlineFreeFromAt(lines[1..]);
    }
  }

  lemma UpdateKeepsNewlineFree(lines: seq<string>, updates: seq<Update>)
    requires NewlineFree(lines) && forall i :: 0 <= i < |updates| ==> '\n' !in Assign(updates[i])
    ensures NewlineFree(UpdateLines(lines, updates))
  {
    var out := UpdateLines(lines, updates);
    forall i | 0 <= i < |out|
      ensures '\n' !in out[i]
    {
      if i < |lines| {
        RewriteAt(lines, updates, i);
        NewlineFreeAt(lines, i);
        UpdateLineIs(lines[i], updates);
      } else {
        var j := MissingAt(updates, Found(lines, updates), i - |lines|);
      }
    }
    NewlineFreeFromAt(out);
  }

  lemma ReadLineHolds(line: string, key: string, value: string)
    requires KeyOf(line) == Some(key) ==> line == Assign((key, value))
    requires Clean(Assign((key, value)))
    ensures KeyOf(Chomp(line + "\n")) == KeyOf(line)
    ensures KeyOf(line) == Some(key) ==> Chomp(line + "\n") == Assign((key, value))
  {
    ChompKeepsKey(line);
    ChompOf(line);
  }

  lemma LinesForHeld(lines: seq<string>, key: string, line: string)
    requires forall i :: 0 <= i < |lines| && KeyOf(lines[i]) == Some(key) ==> lines[i] == line
    requires exists i :: 0 <= i < |lines| && KeyOf(lines[i]) == Some(key)
    ensures LinesFor(lines, key) == {line}
  {
    LinesForIs(lines, key);
  }

  lemma HeldWhenRead(lines: seq<string>, key: string, value: string)
    requires NewlineFree(lines) && key in KeySet(lines) && Clean(Assign((key, value)))
    requires forall i :: 0 <= i < |lines| ==> KeyOf(lines[i]) == Some(key) ==> lines[i] == Assign((key, value))
    ensures Holds(ToText(lines), key, value)
  {
    var k := KeySetWhere(lines, key);
    ReadBack(lines);
    var read := TextLines(ToText(lines));
    forall i | 0 <= i < |read|
      ensures KeyOf(read[i]) == KeyOf(lines[i])
      ensures KeyOf(read[i]) == Some(key) ==> read[i] == Assign((key, value))
    {
      ReadLineHolds(lines[i], key, value);
    }
    LinesForHeld(read, key, Assign((key, value)));
  }

  /** Whatever the file held before, who reads it after the update finds each updated key with its new value
      and with no other. */
  lemma UpdateIsRead(text: string, updates: seq<Update>, key: string)
    requires PlainKeys(updates) && NoConflict(updates) && key in Keys(updates)
    requires forall i :: 0 <= i < |updates| ==> Clean(Assign(updates[i]))
    ensures Lookup(updates, key).Some? && Holds(UpdateText(text, updates), key, Lookup(updates, key).value)
  {
    var before := TextLines(text);
    var lines := UpdateLines(before, updates);
    TextLinesNewlineFree(text);
    UpdateKeepsNewlineFree(before, updates);
    UpdatedKeysOccur(before, updates);
    LookupInKeys(updates, key);
    var value := Lookup(updates, key).value;
    var j := LookupWhere(updates, key);
    forall i | 0 <= i < |lines| && KeyOf(lines[i]) == Some(key)
      ensures lines[i] == Assign((key, value))
    {
      UpdatedLinesHoldValue(before, updates, key, i);
    }
    HeldWhenRead(lines, key, value);
  }
}
