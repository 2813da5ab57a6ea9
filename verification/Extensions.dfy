/** src/guest_extension_image.rs: from the command line and the block devices to verified mounts.
    Where NVRC panics, the result here is None. */
module Extensions {
  import opened Text
  import opened Numerals

  type u64 = n: nat | n < U64_LIMIT

  datatype VerityParams = VerityParams(rootHash: string, salt: string,
                                       dataBlocks: u64, dataBlockSize: u64, hashBlockSize: u64)

  type Field = (string, string)

  // ---------- Verity parameters ----------

  function ParseU64(value: string): Option<u64> {
    match Parse(value, 10, U64_LIMIT)
    case Some(n) => Some(n)
    case None => None
  }

  predicate IsNumeric(key: string) {
    key == "data_blocks" || key == "data_block_size" || key == "hash_block_size"
  }

  predicate WellFormed(field: Field) {
    IsNumeric(field.0) ==> ParseU64(field.1).Some?
  }

  predicate AllWellFormed(fields: seq<Field>) {
    forall f <- fields :: WellFormed(f)
  }

  function NumberOf(value: Option<string>): Option<u64> {
    if value.Some? then ParseU64(value.value) else None
  }

  function NonZero(n: Option<u64>): Option<u64> {
    if n.Some? && n.value != 0 then n else None
  }

  datatype Draft = Draft(rootHash: Option<string>, salt: Option<string>,
                         dataBlocks: Option<u64>, dataBlockSize: Option<u64>, hashBlockSize: Option<u64>)

  /** Each field as its last occurrence gives it. */
  function Latest(fields: seq<Field>): Draft {
    Draft(LastOf(fields, "root_hash"), LastOf(fields, "salt"), NumberOf(LastOf(fields, "data_blocks")),
          NumberOf(LastOf(fields, "data_block_size")), NumberOf(LastOf(fields, "hash_block_size")))
  }

  /** All five are required, and the numbers must not be zero. */
  function Complete(d: Draft): Option<VerityParams> {
    if d.rootHash == None || d.salt == None || NonZero(d.dataBlocks) == None
       || NonZero(d.dataBlockSize) == None || NonZero(d.hashBlockSize) == None then None
    else Some(VerityParams(d.rootHash.value, d.salt.value, d.dataBlocks.value, d.dataBlockSize.value,
                           d.hashBlockSize.value))
  }

  /** Every number that occurs must be a numeral, even one that a later field replaces. */
  function VerityOf(value: string): Option<VerityParams> {
    var fields := Pairs(Split(value, ','));
    if AllWellFormed(fields) then Complete(Latest(fields)) else None
  }

  method ParseVerityParams(value: string) returns (params: Option<VerityParams>)
    ensures params == VerityOf(value)
  {
    var parts := Split(value, ',');
    ghost var fields := Pairs(parts);
    var rootHash, salt: Option<string> := None, None;
    var dataBlocks, dataBlockSize, hashBlockSize: Option<u64> := None, None, None;
    for i := 0 to |parts|
      invariant AllWellFormed(Pairs(parts[..i]))
      invariant Draft(rootHash, salt, dataBlocks, dataBlockSize, hashBlockSize) == Latest(Pairs(parts[..i]))
    {
      NextPart(parts, i);
      var kv := SplitOnce(parts[i], '=');
      if kv.Some? {
        var (key, val) := kv.value;
        LatestOfMore(Pairs(parts[..i]), (key, val));
        if IsNumeric(key) && ParseU64(val) == None {
          return None;
        }
        match key
        case "root_hash" => rootHash := Some(val);
        case "salt" => salt := Some(val);
        case "data_blocks" => dataBlocks := ParseU64(val);
        case "data_block_size" => dataBlockSize := ParseU64(val);
        case "hash_block_size" => hashBlockSize := ParseU64(val);
        case _ =>
      }
    }
    assert parts[..|parts|] == parts;
    params := Complete(Draft(rootHash, salt, dataBlocks, dataBlockSize, hashBlockSize));
  }

  function SetField(d: Draft, f: Field): Draft {
    match f.0
    case "root_hash" => d.(rootHash := Some(f.1))
    case "salt" => d.(salt := Some(f.1))
    case "data_blocks" => d.(dataBlocks := ParseU64(f.1))
    case "data_block_size" => d.(dataBlockSize := ParseU64(f.1))
    case "hash_block_size" => d.(hashBlockSize := ParseU64(f.1))
    case _ => d
  }

  lemma LatestOfMore(fields: seq<Field>, f: Field)
    ensures Latest(fields + [f]) == SetField(Latest(fields), f)
  {
    LastOfMore(fields, f, "root_hash");
    LastOfMore(fields, f, "salt");
    LastOfMore(fields, f, "data_blocks");
    LastOfMore(fields, f, "data_block_size");
    LastOfMore(fields, f, "hash_block_size");
  }

  lemma NextPart(parts: seq<string>, i: nat)
    requires i < |parts|
    ensures var kv := SplitOnce(parts[i], '=');
            && (kv == None ==> Pairs(parts[..i + 1]) == Pairs(parts[..i]))
            && (kv.Some? ==> Pairs(parts[..i + 1]) == Pairs(parts[..i]) + [kv.value] && kv.value in Pairs(parts))
  {
    SplitAtPart(parts, i);
    MorePairs(parts[..i], parts[i]);
    LaterPairs(parts[..i] + [parts[i]], parts[i + 1..]);
  }

  lemma SplitAtPart(parts: seq<string>, i: nat)
    requires i < |parts|
    ensures parts[..i + 1] == parts[..i] + [parts[i]]
    ensures parts == parts[..i] + [parts[i]] + parts[i + 1..]
  {
  }

  lemma LaterPairs(done: seq<string>, later: seq<string>)
    ensures forall f <- Pairs(done) :: f in Pairs(done + later)
  {
    PairsAppend(done, later);
  }

  lemma MorePairs(done: seq<string>, next: string)
    ensures var kv := SplitOnce(next, '=');
            && (kv == None ==> Pairs(done + [next]) == Pairs(done))
            && (kv.Some? ==> Pairs(done + [next]) == Pairs(done) + [kv.value])
  {
    PairsAppend(done, [next]);
    PairOfOne(next);
  }

  lemma PairOfOne(part: string)
    ensures var kv := SplitOnce(part, '='); Pairs([part]) == if kv.Some? then [kv.value] else []
  {
  }

  // ---------- Which parameters are accepted ----------

  predicate Gives(fields: seq<Field>, key: string) {
    exists f <- fields :: f.0 == key
  }

  /** A field occurs, and its last value is not zero. */
  predicate GivesNonZero(fields: seq<Field>, key: string) {
    exists i :: 0 <= i < |fields| && fields[i].0 == key && ParseU64(fields[i].1) != Some(0) && IsLast(fields, i)
  }

  predicate IsLast(fields: seq<Field>, i: nat)
    requires i < |fields|
  {
    forall j :: i < j < |fields| ==> fields[j].0 != fields[i].0
  }

  /** All five fields are there, every number that occurs is a u64 numeral, and the last of each is not zero. */
  predicate VerityAccepted(value: string) {
    var fields := Pairs(Split(value, ','));
    && AllWellFormed(fields)
    && Gives(fields, "root_hash") && Gives(fields, "salt")
    && GivesNonZero(fields, "data_blocks") && GivesNonZero(fields, "data_block_size")
    && GivesNonZero(fields, "hash_block_size")
  }

  lemma GivesExactly(fields: seq<Field>, key: string)
    ensures Gives(fields, key) <==> LastOf(fields, key).Some?
  {
    LastOfIs(fields, key);
  }

  lemma GivesNonZeroExactly(fields: seq<Field>, key: string)
    requires AllWellFormed(fields) && IsNumeric(key)
    ensures GivesNonZero(fields, key) <==> NonZero(NumberOf(LastOf(fields, key))).Some?
  {
    LastOfIs(fields, key);
    if LastOf(fields, key).Some? {
      var i :| 0 <= i < |fields| && fields[i] == (key, LastOf(fields, key).value)
               && forall j :: i < j < |fields| ==> fields[j].0 != key;
      assert IsLast(fields, i) && fields[i] in fields;
      assert forall k :: 0 <= k < |fields| && fields[k].0 == key && IsLast(fields, k) ==> k == i;
    }
  }

  /** A value is parsed exactly when it is accepted. */
  lemma ParsesExactly(value: string)
    ensures VerityOf(value).Some? <==> VerityAccepted(value)
  {
    var fields := Pairs(Split(value, ','));
    GivesExactly(fields, "root_hash");
    GivesExactly(fields, "salt");
    if AllWellFormed(fields) {
      GivesNonZeroExactly(fields, "data_blocks");
      GivesNonZeroExactly(fields, "data_block_size");
      GivesNonZeroExactly(fields, "hash_block_size");
    }
  }

  // ---------- The parameter list of a command line ----------

  const KEY_PREFIX := "kata.extension."
  const KEY_SUFFIX := ".verity_params"

  /** `strip_prefix`, then `strip_suffix`. */
  function ExtensionName(key: string): Option<string> {
    if !(KEY_PREFIX <= key) then None
    else
      var rest := key[|KEY_PREFIX|..];
      if |rest| < |KEY_SUFFIX| || rest[|rest| - |KEY_SUFFIX|..] != KEY_SUFFIX then None
      else Some(rest[..|rest| - |KEY_SUFFIX|])
  }

  /** A key names an extension exactly when it is "kata.extension.", the name, and ".verity_params". */
  lemma ExtensionNameExactly(key: string, name: string)
    ensures ExtensionName(key) == Some(name) <==> key == "kata.extension." + name + ".verity_params"
  {
    NameOfKey(name);
    if ExtensionName(key).Some? {
      var rest := key[|KEY_PREFIX|..];
      assert key == KEY_PREFIX + rest && rest == rest[..|rest| - |KEY_SUFFIX|] + KEY_SUFFIX;
      Associative(KEY_PREFIX, ExtensionName(key).value, KEY_SUFFIX);
    }
  }

  type Param = (string, VerityParams)

  function ParamsOf(pairs: seq<Field>): Option<seq<Param>> {
    if pairs == [] then Some([])
    else
      var rest, name := ParamsOf(pairs[1..]), ExtensionName(pairs[0].0);
      if name == None then rest
      else
        var verity := VerityOf(pairs[0].1);
        if verity == None || rest == None then None else Some([(name.value, verity.value)] + rest.value)
  }

  function ParseExtensions(cmdline: string): Option<seq<Param>> {
    ParamsOf(Pairs(SplitWhitespace(cmdline)))
  }

  predicate PairAccepted(p: Field) {
    ExtensionName(p.0).Some? ==> VerityAccepted(p.1)
  }

  /** The command line is parsed exactly when all values for extensions are accepted. */
  lemma {:induction false} ParamsExactly(pairs: seq<Field>)
    ensures ParamsOf(pairs).Some? <==> forall p <- pairs :: PairAccepted(p)
  {
    if pairs != [] {
      ParamsExactly(pairs[1..]);
      ParsesExactly(pairs[0].1);
      AcceptedInTurn(pairs);
    }
  }

  lemma AcceptedInTurn(pairs: seq<Field>)
    requires pairs != []
    ensures (forall p <- pairs :: PairAccepted(p)) <==>
              PairAccepted(pairs[0]) && forall p <- pairs[1..] :: PairAccepted(p)
  {
    assert forall p :: p in pairs <==> p == pairs[0] || p in pairs[1..];
  }

  /** It then gives parameters for the extensions it names. */
  lemma {:induction false} ParamsAreNamed(pairs: seq<Field>, name: string)
    requires ParamsOf(pairs).Some?
    ensures (exists q <- ParamsOf(pairs).value :: q.0 == name) <==>
              exists p <- pairs :: ExtensionName(p.0) == Some(name)
  {
    if pairs != [] {
      ParamsAreNamed(pairs[1..], name);
      var rest, first := ParamsOf(pairs[1..]).value, ExtensionName(pairs[0].0);
      assert forall p :: p in pairs <==> p == pairs[0] || p in pairs[1..];
      if first.Some? {
        var q := (first.value, VerityOf(pairs[0].1).value);
        assert forall r :: r in ParamsOf(pairs).value <==> r == q || r in rest;
        assert pairs[0] in pairs && q in ParamsOf(pairs).value;
      }
    }
  }

  // ---------- Rendering and reading back ----------

  function RenderPairs(pairs: seq<Field>): seq<string> {
    if pairs == [] then [] else [pairs[0].0 + "=" + pairs[0].1] + RenderPairs(pairs[1..])
  }

  function PairsOfFields(p: VerityParams): seq<Field> {
    [("root_hash", p.rootHash), ("salt", p.salt), ("data_blocks", Decimal(p.dataBlocks)),
     ("data_block_size", Decimal(p.dataBlockSize)), ("hash_block_size", Decimal(p.hashBlockSize))]
  }

  /** The comma-separated list that the image builder emits. */
  function RenderParams(p: VerityParams): string {
    Join(RenderPairs(PairsOfFields(p)), ',')
  }

  predicate Separable(p: VerityParams) {
    && ',' !in p.rootHash && ',' !in p.salt
    && p.dataBlocks != 0 && p.dataBlockSize != 0 && p.hashBlockSize != 0
  }

  lemma {:induction false} PairsOfRendered(pairs: seq<Field>)
    requires forall f <- pairs :: '=' !in f.0
    ensures Pairs(RenderPairs(pairs)) == pairs
  {
    if pairs != [] {
      var (key, value) := pairs[0];
      assert forall f <- pairs[1..] :: f in pairs;
      PairsOfRendered(pairs[1..]);
      PairFirst(key, value, RenderPairs(pairs[1..]));
    }
  }

  lemma {:induction false} RenderedAvoid(pairs: seq<Field>, c: char)
    requires c != '=' && forall f <- pairs :: c !in f.0 && c !in f.1
    ensures forall part <- RenderPairs(pairs) :: c !in part
  {
    if pairs != [] {
      assert forall f <- pairs[1..] :: f in pairs;
      RenderedAvoid(pairs[1..], c);
    }
  }

  lemma {:induction false} RenderedNoWhitespace(pairs: seq<Field>)
    requires forall f <- pairs :: NoWhitespace(f.0) && NoWhitespace(f.1)
    ensures forall part <- RenderPairs(pairs) :: NoWhitespace(part)
  {
    if pairs != [] {
      assert forall f <- pairs[1..] :: f in pairs;
      RenderedNoWhitespace(pairs[1..]);
    }
  }

  lemma LatestRendered(p: VerityParams)
    ensures AllWellFormed(PairsOfFields(p))
    ensures Latest(PairsOfFields(p))
              == Draft(Some(p.rootHash), Some(p.salt), Some(p.dataBlocks), Some(p.dataBlockSize), Some(p.hashBlockSize))
  {
    ParseOfDecimal(p.dataBlocks, U64_LIMIT);
    ParseOfDecimal(p.dataBlockSize, U64_LIMIT);
    ParseOfDecimal(p.hashBlockSize, U64_LIMIT);
    LatestOfFive(("root_hash", p.rootHash), ("salt", p.salt), ("data_blocks", Decimal(p.dataBlocks)),
                 ("data_block_size", Decimal(p.dataBlockSize)), ("hash_block_size", Decimal(p.hashBlockSize)));
  }

  lemma LatestOfFive(a: Field, b: Field, c: Field, d: Field, e: Field)
    ensures Latest([a, b, c, d, e])
            == SetField(SetField(SetField(SetField(SetField(Draft(None, None, None, None, None), a), b), c), d), e)
  {
    var one := [] + [a];
    var two := one + [b];
    var three := two + [c];
    var four := three + [d];
    LatestOfMore([], a);
    LatestOfMore(one, b);
    LatestOfMore(two, c);
    LatestOfMore(three, d);
    LatestOfMore(four, e);
    assert four + [e] == [a, b, c, d, e];
  }

  /** The texts between commas have no comma, nor have their values. */
  lemma {:induction false} PairValues(texts: seq<string>, c: char)
    requires forall t <- texts :: c !in t
    ensures forall f <- Pairs(texts) :: c !in f.1
  {
    if texts != [] {
      PairValues(texts[1..], c);
      var kv := SplitOnce(texts[0], '=');
      if kv.Some? {
        assert forall d :: d in kv.value.1 ==> d in texts[0];
      }
    }
  }

  lemma ParsedIsSeparable(value: string)
    requires VerityOf(value).Some?
    ensures Separable(VerityOf(value).value)
  {
    var fields := Pairs(Split(value, ','));
    PairValues(Split(value, ','), ',');
    LastOccurs(fields, "root_hash");
    LastOccurs(fields, "salt");
  }

  lemma FieldsAvoidComma(p: VerityParams)
    requires Separable(p)
    ensures forall f <- PairsOfFields(p) :: ',' !in f.0 && ',' !in f.1
  {
    assert ',' !in Decimal(p.dataBlocks) && ',' !in Decimal(p.dataBlockSize) && ',' !in Decimal(p.hashBlockSize);
  }

  lemma FieldsReadBack(p: VerityParams)
    requires Separable(p)
    ensures Pairs(Split(RenderParams(p), ',')) == PairsOfFields(p)
  {
    var pairs := PairsOfFields(p);
    FieldsAvoidComma(p);
    RenderedAvoid(pairs, ',');
    SplitOfJoin(RenderPairs(pairs), ',');
    PairsOfRendered(pairs);
  }

  /** Rendered parameters are read back unchanged exactly when the strings have no comma and the numbers are
      not zero. */
  lemma VerityRoundTripExactly(p: VerityParams)
    ensures VerityOf(RenderParams(p)) == Some(p) <==> Separable(p)
  {
    if Separable(p) {
      FieldsReadBack(p);
      LatestRendered(p);
    } else if VerityOf(RenderParams(p)) == Some(p) {
      ParsedIsSeparable(RenderParams(p));
    }
  }

  /** A word of a command line: an extension's parameters, or anything else. */
  datatype Word = Entry(name: string, params: VerityParams) | Unrelated(text: string)

  function RenderWord(w: Word): string {
    match w
    case Entry(name, params) => KEY_PREFIX + name + KEY_SUFFIX + "=" + RenderParams(params)
    case Unrelated(text) => text
  }

  function RenderWords(words: seq<Word>): seq<string> {
    if words == [] then [] else [RenderWord(words[0])] + RenderWords(words[1..])
  }

  predicate GoodWord(w: Word) {
    match w
    case Entry(name, params) =>
      && NoWhitespace(name) && '=' !in name && Separable(params)
      && NoWhitespace(params.rootHash) && NoWhitespace(params.salt)
    case Unrelated(text) =>
      && text != "" && NoWhitespace(text)
      && (SplitOnce(text, '=').Some? ==> ExtensionName(SplitOnce(text, '=').value.0) == None)
  }

  function Entries(words: seq<Word>): seq<Param> {
    if words == [] then [] else
      match words[0]
      case Entry(name, params) => [(name, params)] + Entries(words[1..])
      case Unrelated(_) => Entries(words[1..])
  }

  lemma NameOfKey(name: string)
    ensures ExtensionName(KEY_PREFIX + name + KEY_SUFFIX) == Some(name)
    ensures '=' !in name ==> '=' !in KEY_PREFIX + name + KEY_SUFFIX
  {
    assert '=' !in KEY_PREFIX && '=' !in KEY_SUFFIX;
    var key := KEY_PREFIX + name + KEY_SUFFIX;
    assert key[|KEY_PREFIX|..] == name + KEY_SUFFIX;
    assert (name + KEY_SUFFIX)[|name|..] == KEY_SUFFIX && (name + KEY_SUFFIX)[..|name|] == name;
  }

  lemma {:induction false} JoinNoWhitespace(parts: seq<string>, c: char)
    requires !IsWhitespace(c) && forall p <- parts :: NoWhitespace(p)
    ensures NoWhitespace(Join(parts, c))
  {
    if |parts| == 1 {
      assert parts[0] in parts;
    } else if |parts| > 1 {
      JoinNoWhitespace(parts[1..], c);
      assert NoWhitespace(parts[0]);
    }
  }

  lemma FieldsNoWhitespace(p: VerityParams)
    requires NoWhitespace(p.rootHash) && NoWhitespace(p.salt)
    ensures forall f <- PairsOfFields(p) :: NoWhitespace(f.0) && NoWhitespace(f.1)
  {
    DecimalNoWhitespace(p.dataBlocks);
    DecimalNoWhitespace(p.dataBlockSize);
    DecimalNoWhitespace(p.hashBlockSize);
  }

  lemma DecimalNoWhitespace(n: nat)
    ensures NoWhitespace(Decimal(n))
  {
  }

  lemma ParamsNoWhitespace(p: VerityParams)
    requires NoWhitespace(p.rootHash) && NoWhitespace(p.salt)
    ensures NoWhitespace(RenderParams(p))
  {
    FieldsNoWhitespace(p);
    RenderedNoWhitespace(PairsOfFields(p));
    JoinNoWhitespace(RenderPairs(PairsOfFields(p)), ',');
  }

  lemma NoWhitespaceAppend(a: string, b: string)
    requires NoWhitespace(a) && NoWhitespace(b)
    ensures NoWhitespace(a + b)
  {
  }

  lemma WordIsWord(w: Word)
    requires GoodWord(w)
    ensures RenderWord(w) != "" && NoWhitespace(RenderWord(w))
  {
    if w.Entry? {
      ParamsNoWhitespace(w.params);
      NoWhitespaceAppend(KEY_PREFIX, w.name);
      NoWhitespaceAppend(KEY_PREFIX + w.name, KEY_SUFFIX);
      NoWhitespaceAppend(KEY_PREFIX + w.name + KEY_SUFFIX, "=");
      NoWhitespaceAppend(KEY_PREFIX + w.name + KEY_SUFFIX + "=", RenderParams(w.params));
    }
  }

  lemma {:induction false} WordsAreWords(words: seq<Word>)
    requires forall w <- words :: GoodWord(w)
    ensures forall s <- RenderWords(words) :: s != "" && NoWhitespace(s)
  {
    if words != [] {
      WordIsWord(words[0]);
      WordsAreWords(words[1..]);
    }
  }

  lemma ParamsCons(pair: Field, rest: seq<Field>)
    requires ParamsOf(rest).Some?
    ensures var name, verity := ExtensionName(pair.0), VerityOf(pair.1);
            && (name == None ==> ParamsOf([pair] + rest) == ParamsOf(rest))
            && (name.Some? && verity.Some? ==>
                  ParamsOf([pair] + rest) == Some([(name.value, verity.value)] + ParamsOf(rest).value))
  {
    assert ([pair] + rest)[1..] == rest;
  }

  lemma PairFirst(key: string, value: string, rest: seq<string>)
    requires '=' !in key
    ensures Pairs([key + "=" + value] + rest) == [(key, value)] + Pairs(rest)
  {
    OnePair(key, value);
    PairsAppend([key + "=" + value], rest);
  }

  lemma EntryReadBack(name: string, params: VerityParams, rest: seq<string>)
    requires GoodWord(Entry(name, params)) && ParamsOf(Pairs(rest)).Some?
    ensures ParamsOf(Pairs([RenderWord(Entry(name, params))] + rest))
              == Some([(name, params)] + ParamsOf(Pairs(rest)).value)
  {
    var key := KEY_PREFIX + name + KEY_SUFFIX;
    NameOfKey(name);
    PairFirst(key, RenderParams(params), rest);
    VerityRoundTripExactly(params);
    ParamsCons((key, RenderParams(params)), Pairs(rest));
  }

  lemma UnrelatedSkipped(text: string, rest: seq<string>)
    requires GoodWord(Unrelated(text)) && ParamsOf(Pairs(rest)).Some?
    ensures ParamsOf(Pairs([text] + rest)) == ParamsOf(Pairs(rest))
  {
    PairOfOne(text);
    PairsAppend([text], rest);
    var kv := SplitOnce(text, '=');
    if kv.Some? {
      ParamsCons(kv.value, Pairs(rest));
    } else {
      assert [] + Pairs(rest) == Pairs(rest);
    }
  }

  lemma {:induction false} EntriesReadBack(words: seq<Word>)
    requires forall w <- words :: GoodWord(w)
    ensures ParamsOf(Pairs(RenderWords(words))) == Some(Entries(words))
  {
    if words != [] {
      EntriesReadBack(words[1..]);
      match words[0]
      case Entry(name, params) => EntryReadBack(name, params, RenderWords(words[1..]));
      case Unrelated(text) => UnrelatedSkipped(text, RenderWords(words[1..]));
    }
  }

  /** Whatever list of extensions is rendered on a command line, among whatever other words, is read back in
      order. */
  lemma CommandLineRoundTrip(words: seq<Word>)
    requires forall w <- words :: GoodWord(w)
    ensures ParseExtensions(Join(RenderWords(words), ' ')) == Some(Entries(words))
  {
    WordsAreWords(words);
    SplitWhitespaceOfJoin(RenderWords(words));
    EntriesReadBack(words);
  }
}
