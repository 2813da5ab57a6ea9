/** src/kernel_params.rs: folding the kernel command line into the settings. */
module KernelParams {
  import opened Text
  import opened Numerals
  import opened Nvrc

  type Token = (string, string)

  datatype Param = Log | Uvm | Dcgm | Srs | Lgc | Lmc | Pl | Other

  datatype ParamError = InvalidNumber(param: Param, value: string) | LogNotWritable | CmdlineUnreadable

  /** How far the fold has come: the settings, how often printk_devkmsg was written, and the error that
      ended it, if any. */
  datatype Progress = Progress(settings: Settings, logWrites: nat, error: Option<ParamError>)

  /** Whether the n-th write to printk_devkmsg succeeds. */
  type LogWritable = nat -> bool

  function Lowered(c: char): char {
    if 'A' <= c <= 'Z' then c + 32 as char else c
  }

  function Lower(s: string): (r: string)
    ensures |r| == |s|
  {
    if s == "" then "" else [Lowered(s[0])] + Lower(s[1..])
  }

  predicate ParseBoolean(s: string) {
    match Lower(s)
    case "on" => true
    case "true" => true
    case "1" => true
    case "yes" => true
    case _ => false
  }

  function Classify(key: string): Param {
    match key
    case "nvrc.log" => Log
    case "nvrc.uvm.persistence.mode" => Uvm
    case "nvrc.dcgm" => Dcgm
    case "nvrc.smi.srs" => Srs
    case "nvrc.smi.lgc" => Lgc
    case "nvrc.smi.lmc" => Lmc
    case "nvrc.smi.pl" => Pl
    case _ => Other
  }

  function ParseU32(value: string): Option<u32> {
    match Parse(value, 10, U32_LIMIT)
    case Some(n) => Some(n)
    case None => None
  }

  /** What one `key=value` does, unless an earlier one has failed. */
  function Apply(p: Progress, t: Token, writable: LogWritable): Progress {
    if p.error.Some? then p else
    match Classify(t.0)
    case Log => p.(logWrites := p.logWrites + 1, error := if writable(p.logWrites) then None else Some(LogNotWritable))
    case Uvm => p.(settings := p.settings.(uvm := Some(ParseBoolean(t.1))))
    case Dcgm => p.(settings := p.settings.(dcgm := Some(ParseBoolean(t.1))))
    case Srs => p.(settings := p.settings.(srs := Some(t.1)))
    case Other => p
    case param => Number(p, param, t.1)
  }

  function Number(p: Progress, param: Param, value: string): Progress {
    var n := ParseU32(value);
    if n == None then p.(error := Some(InvalidNumber(param, value)))
    else if param == Lgc then p.(settings := p.settings.(lgc := n))
    else if param == Lmc then p.(settings := p.settings.(lmc := n))
    else p.(settings := p.settings.(pl := n))
  }

  function Fold(p: Progress, tokens: seq<Token>, writable: LogWritable): Progress
    decreases |tokens|
  {
    if tokens == [] then p else Fold(Apply(p, tokens[0], writable), tokens[1..], writable)
  }

  function Process(p: Progress, cmdline: string, writable: LogWritable): Progress {
    Fold(p, Pairs(SplitWhitespace(cmdline)), writable)
  }

  function Fresh(settings: Settings): Progress {
    Progress(settings, 0, None)
  }

  // ---------- The program ----------

  /** `given` is the caller's command line; without one /proc/cmdline is read, which may fail. */
  method TryProcessKernelParams(init: NVRC, given: Option<string>, procCmdline: Option<string>, writable: LogWritable)
      returns (error: Option<ParamError>)
    modifies init
    ensures given == None && procCmdline == None ==> error == Some(CmdlineUnreadable) && init.Now() == old(init.Now())
    ensures var content := if given.Some? then given else procCmdline;
            content.Some? ==>
              var r := Process(Fresh(old(init.CurrentSettings())), content.value, writable);
              error == r.error && init.Now() == old(init.Now()).(settings := r.settings)
  {
    var content := if given.Some? then given else procCmdline;
    if content == None {
      return Some(CmdlineUnreadable);
    }
    var words := SplitWhitespace(content.value);
    ghost var whole := Process(Fresh(init.CurrentSettings()), content.value, writable);
    var logWrites := 0;
    error := None;
    for i := 0 to |words|
      invariant error == None
      invariant init.portGuid == old(init.portGuid) && init.children == old(init.children)
      invariant Fold(Progress(init.CurrentSettings(), logWrites, None), Pairs(words[i..]), writable) == whole
    {
      NextWord(words, i, Progress(init.CurrentSettings(), logWrites, None), writable);
      var token := SplitOnce(words[i], '=');
      if token.Some? {
        error, logWrites := SetParam(init, token.value.0, token.value.1, logWrites, writable);
        if error.Some? {
          ErrorEndsFold(Progress(init.CurrentSettings(), logWrites, error), Pairs(words[i + 1..]), writable);
          return;
        }
      }
    }
    assert words[|words|..] == [];
  }

  method SetParam(init: NVRC, key: string, value: string, logWrites: nat, writable: LogWritable)
      returns (error: Option<ParamError>, logWrites': nat)
    modifies init
    ensures init.portGuid == old(init.portGuid) && init.children == old(init.children)
    ensures Progress(init.CurrentSettings(), logWrites', error)
            == Apply(Progress(old(init.CurrentSettings()), logWrites, None), (key, value), writable)
  {
    error, logWrites' := None, logWrites;
    match Classify(key)
    case Log =>
      if !writable(logWrites) {
        error := Some(LogNotWritable);
      }
      logWrites' := logWrites + 1;
    case Uvm => init.uvmPersistenceMode := Some(ParseBoolean(value));
    case Dcgm => init.dcgmEnabled := Some(ParseBoolean(value));
    case Srs => init.nvidiaSmiSrs := Some(value);
    case Lgc => error := NvidiaSmiLgc(init, value);
    case Lmc => error := NvidiaSmiLmc(init, value);
    case Pl => error := NvidiaSmiPl(init, value);
    case Other =>
  }

  method NvidiaSmiLgc(init: NVRC, value: string) returns (error: Option<ParamError>)
    modifies init`nvidiaSmiLgc
    ensures Progress(init.CurrentSettings(), 0, error) == Number(Fresh(old(init.CurrentSettings())), Lgc, value)
  {
    var mhz := ParseU32(value);
    if mhz == None {
      return Some(InvalidNumber(Lgc, value));
    }
    init.nvidiaSmiLgc := mhz;
    error := None;
  }

  method NvidiaSmiLmc(init: NVRC, value: string) returns (error: Option<ParamError>)
    modifies init`nvidiaSmiLmc
    ensures Progress(init.CurrentSettings(), 0, error) == Number(Fresh(old(init.CurrentSettings())), Lmc, value)
  {
    var mhz := ParseU32(value);
    if mhz == None {
      return Some(InvalidNumber(Lmc, value));
    }
    init.nvidiaSmiLmc := mhz;
    error := None;
  }

  method NvidiaSmiPl(init: NVRC, value: string) returns (error: Option<ParamError>)
    modifies init`nvidiaSmiPl
    ensures Progress(init.CurrentSettings(), 0, error) == Number(Fresh(old(init.CurrentSettings())), Pl, value)
  {
    var watts := ParseU32(value);
    if watts == None {
      return Some(InvalidNumber(Pl, value));
    }
    init.nvidiaSmiPl := watts;
    error := None;
  }

  lemma NextWord(words: seq<string>, i: nat, p: Progress, writable: LogWritable)
    requires i < |words|
    ensures var rest := Pairs(words[i + 1..]);
            Fold(p, Pairs(words[i..]), writable)
            == match SplitOnce(words[i], '=')
               case Some(t) => Fold(Apply(p, t, writable), rest, writable)
               case None => Fold(p, rest, writable)
  {
    assert words[i..][0] == words[i] && words[i..][1..] == words[i + 1..];
    var rest := Pairs(words[i + 1..]);
    var token := SplitOnce(words[i], '=');
    if token.Some? {
      assert ([token.value] + rest)[1..] == rest;
    }
  }

  lemma {:induction false} ErrorEndsFold(p: Progress, tokens: seq<Token>, writable: LogWritable)
    requires p.error.Some?
    ensures Fold(p, tokens, writable) == p
    decreases |tokens|
  {
    if tokens != [] {
      ErrorEndsFold(p, tokens[1..], writable);
    }
  }

  // ---------- Booleans ----------

  /** The same letters, or upper-case ones for lower-case ones. */
  predicate SameButCase(s: string, lower: string) {
    |s| == |lower| &&
    forall i :: 0 <= i < |s| ==> s[i] == lower[i] || ('a' <= lower[i] <= 'z' && s[i] as int == lower[i] as int - 32)
  }

  lemma {:induction false} LowerAt(s: string, i: nat)
    requires i < |s|
    ensures Lower(s)[i] == Lowered(s[i])
    decreases i
  {
    if i > 0 {
      LowerAt(s[1..], i - 1);
    }
  }

  lemma LowerExactly(s: string, lower: string)
    requires forall c <- lower :: !('A' <= c <= 'Z')
    ensures Lower(s) == lower <==> SameButCase(s, lower)
  {
    if |s| == |lower| {
      forall i | 0 <= i < |s|
        ensures Lower(s)[i] == Lowered(s[i])
        ensures Lowered(s[i]) == lower[i] <==>
                  s[i] == lower[i] || ('a' <= lower[i] <= 'z' && s[i] as int == lower[i] as int - 32)
      {
        LowerAt(s, i);
        assert lower[i] in lower;
      }
    }
  }

  /** "on", "true", "1" and "yes" in any case are true, everything else is false. */
  lemma BooleanExactly(s: string)
    ensures ParseBoolean(s) <==>
              SameButCase(s, "on") || SameButCase(s, "true") || SameButCase(s, "1") || SameButCase(s, "yes")
  {
    LowerExactly(s, "on");
    LowerExactly(s, "true");
    LowerExactly(s, "1");
    LowerExactly(s, "yes");
  }

  // ---------- In sequence ----------

  lemma {:induction false} FoldAppend(p: Progress, a: seq<Token>, b: seq<Token>, writable: LogWritable)
    ensures Fold(p, a + b, writable) == Fold(Fold(p, a, writable), b, writable)
    decreases |a|
  {
    if a == [] {
      assert a + b == b;
    } else {
      assert (a + b)[1..] == a[1..] + b;
      FoldAppend(Apply(p, a[0], writable), a[1..], b, writable);
    }
  }

  /** A command line is processed like its parts in sequence. */
  lemma ProcessInSequence(p: Progress, a: string, c: char, b: string, writable: LogWritable)
    requires IsWhitespace(c)
    ensures Process(p, a + [c] + b, writable) == Process(Process(p, a, writable), b, writable)
  {
    SplitWhitespaceAppend(a, c, b);
    PairsAppend(SplitWhitespace(a), SplitWhitespace(b));
    FoldAppend(p, Pairs(SplitWhitespace(a)), Pairs(SplitWhitespace(b)), writable);
  }

  // ---------- The last occurrence wins ----------

  function Key(param: Param): string
    requires param != Other
  {
    match param
    case Log => "nvrc.log"
    case Uvm => "nvrc.uvm.persistence.mode"
    case Dcgm => "nvrc.dcgm"
    case Srs => "nvrc.smi.srs"
    case Lgc => "nvrc.smi.lgc"
    case Lmc => "nvrc.smi.lmc"
    case Pl => "nvrc.smi.pl"
  }

  lemma ClassifyIs(key: string, param: Param)
    requires param != Other
    ensures Classify(key) == param <==> key == Key(param)
  {
  }

  /** The value of the last token for a parameter. */
  function Last(tokens: seq<Token>, param: Param): Option<string>
    requires param != Other
  {
    LastOf(tokens, Key(param))
  }

  lemma LastAfter(tokens: seq<Token>, t: Token, param: Param)
    requires param != Other
    ensures Last(tokens + [t], param) == if Classify(t.0) == param then Some(t.1) else Last(tokens, param)
  {
    ClassifyIs(t.0, param);
    LastOfMore(tokens, t, Key(param));
  }

  function Occurrences(tokens: seq<Token>, param: Param): nat {
    if tokens == [] then 0 else (if Classify(tokens[0].0) == param then 1 else 0) + Occurrences(tokens[1..], param)
  }

  function BooleanOr(value: Option<string>, unset: Option<bool>): Option<bool> {
    if value.Some? then Some(ParseBoolean(value.value)) else unset
  }

  function NumberOr(value: Option<string>, unset: Option<u32>): Option<u32> {
    if value.Some? then ParseU32(value.value) else unset
  }

  /** The settings `s`, each overridden by its last token. */
  function Latest(s: Settings, tokens: seq<Token>): Settings {
    Settings(if Last(tokens, Srs).Some? then Last(tokens, Srs) else s.srs,
             NumberOr(Last(tokens, Lgc), s.lgc),
             NumberOr(Last(tokens, Lmc), s.lmc),
             NumberOr(Last(tokens, Pl), s.pl),
             BooleanOr(Last(tokens, Uvm), s.uvm),
             BooleanOr(Last(tokens, Dcgm), s.dcgm))
  }

  /** After a fold without error each setting is what its last token says, or what it was before. */
  lemma {:induction false} LastWins(p: Progress, tokens: seq<Token>, writable: LogWritable)
    requires Fold(p, tokens, writable).error == None
    ensures Fold(p, tokens, writable).settings == Latest(p.settings, tokens)
    decreases |tokens|
  {
    if tokens != [] {
      var init, t := tokens[..|tokens| - 1], tokens[|tokens| - 1];
      assert tokens == init + [t];
      FoldAppend(p, init, [t], writable);
      var q := Fold(p, init, writable);
      OneToken(q, t, writable);
      LastWins(p, init, writable);
      ApplySets(q, t, writable);
      LatestOfMore(p.settings, init, t);
    }
  }

  lemma OneToken(q: Progress, t: Token, writable: LogWritable)
    ensures Fold(q, [t], writable) == Apply(q, t, writable)
  {
  }

  function Set(s: Settings, param: Param, value: string): Settings {
    match param
    case Srs => s.(srs := Some(value))
    case Lgc => s.(lgc := ParseU32(value))
    case Lmc => s.(lmc := ParseU32(value))
    case Pl => s.(pl := ParseU32(value))
    case Uvm => s.(uvm := Some(ParseBoolean(value)))
    case Dcgm => s.(dcgm := Some(ParseBoolean(value)))
    case _ => s
  }

  lemma ApplySets(q: Progress, t: Token, writable: LogWritable)
    requires Apply(q, t, writable).error == None
    ensures q.error == None && Apply(q, t, writable).settings == Set(q.settings, Classify(t.0), t.1)
  {
  }

  lemma LatestOfMore(s: Settings, tokens: seq<Token>, t: Token)
    ensures Latest(s, tokens + [t]) == Set(Latest(s, tokens), Classify(t.0), t.1)
  {
    LastAfter(tokens, t, Srs);
    LastAfter(tokens, t, Lgc);
    LastAfter(tokens, t, Lmc);
    LastAfter(tokens, t, Pl);
    LastAfter(tokens, t, Uvm);
    LastAfter(tokens, t, Dcgm);
  }

  // ---------- When it fails ----------

  predicate IsNumber(param: Param) {
    param == Lgc || param == Lmc || param == Pl
  }

  predicate BadNumber(t: Token) {
    IsNumber(Classify(t.0)) && ParseU32(t.1) == None
  }

  /** The fold fails exactly when some clock or power value is no u32 numeral, or a write to
      printk_devkmsg that the command line asks for fails. */
  lemma {:induction false} FailsExactly(p: Progress, tokens: seq<Token>, writable: LogWritable)
    requires p.error == None
    ensures Fold(p, tokens, writable).error.Some? <==>
              || (exists t <- tokens :: BadNumber(t))
              || (exists n :: p.logWrites <= n < p.logWrites + Occurrences(tokens, Log) && !writable(n))
    decreases |tokens|
  {
    if tokens != [] {
      var t, rest := tokens[0], tokens[1..];
      var next := Apply(p, t, writable);
      if next.error.Some? {
        ErrorEndsFold(next, rest, writable);
        FailsNow(p, t, writable);
      } else {
        FailsExactly(next, rest, writable);
        assert forall s :: s in tokens <==> s == t || s in rest;
        FailsLater(p, t, writable, Occurrences(rest, Log));
      }
    }
  }

  lemma FailsNow(p: Progress, t: Token, writable: LogWritable)
    requires p.error == None && Apply(p, t, writable).error.Some?
    ensures BadNumber(t) || (Classify(t.0) == Log && !writable(p.logWrites))
  {
  }

  lemma FailsLater(p: Progress, t: Token, writable: LogWritable, later: nat)
    requires p.error == None && Apply(p, t, writable).error == None
    ensures !BadNumber(t)
    ensures var next := Apply(p, t, writable).logWrites;
            (exists n :: next <= n < next + later && !writable(n)) <==>
            (exists n :: p.logWrites <= n < p.logWrites + (if Classify(t.0) == Log then 1 else 0) + later
                && !writable(n))
  {
  }

  // ---------- Order matters only between equal keys ----------

  /** Neighbours with different keys may change places: the result is the same, or both orders fail. */
  lemma NeighboursCommute(p: Progress, pre: seq<Token>, a: Token, b: Token, post: seq<Token>, writable: LogWritable)
    requires a.0 != b.0
    ensures var x, y := Fold(p, pre + [a, b] + post, writable), Fold(p, pre + [b, a] + post, writable);
            (x.error == None <==> y.error == None) && (x.error == None ==> x == y)
  {
    var q := Fold(p, pre, writable);
    PairInside(p, pre, a, b, post, writable);
    PairInside(p, pre, b, a, post, writable);
    var x, y := Apply(Apply(q, a, writable), b, writable), Apply(Apply(q, b, writable), a, writable);
    PairCommutes(q, a, b, writable);
    if x.error.Some? {
      ErrorEndsFold(x, post, writable);
      ErrorEndsFold(y, post, writable);
    }
  }

  lemma PairInside(p: Progress, pre: seq<Token>, a: Token, b: Token, post: seq<Token>, writable: LogWritable)
    ensures Fold(p, pre + [a, b] + post, writable)
            == Fold(Apply(Apply(Fold(p, pre, writable), a, writable), b, writable), post, writable)
  {
    var q := Fold(p, pre, writable);
    FoldAppend(p, pre + [a, b], post, writable);
    FoldAppend(p, pre, [a, b], writable);
    assert [a, b][1..] == [b];
    var r := Apply(q, a, writable);
    assert Fold(q, [a, b], writable) == Fold(r, [b], writable) == Apply(r, b, writable);
  }

  lemma PairCommutes(q: Progress, a: Token, b: Token, writable: LogWritable)
    requires a.0 != b.0
    ensures var x, y := Apply(Apply(q, a, writable), b, writable), Apply(Apply(q, b, writable), a, writable);
            (x.error == None <==> y.error == None) && (x.error == None ==> x == y)
  {
    if Classify(a.0) != Classify(b.0) {
      ParamsCommute(q, a, b, writable);
    } else {
      KeysByParam(a.0, b.0);
    }
  }

  /** Different keys stand for different parameters, unless for none. */
  lemma KeysByParam(a: string, b: string)
    requires a != b && Classify(a) == Classify(b)
    ensures Classify(a) == Other
  {
  }

  lemma ParamsCommute(q: Progress, a: Token, b: Token, writable: LogWritable)
    requires Classify(a.0) != Classify(b.0)
    ensures var x, y := Apply(Apply(q, a, writable), b, writable), Apply(Apply(q, b, writable), a, writable);
            (x.error == None <==> y.error == None) && (x.error == None ==> x == y)
  {
  }

  /** The tokens that NVRC knows. */
  function Known(tokens: seq<Token>): seq<Token> {
    if tokens == [] then []
    else if Classify(tokens[0].0) == Other then Known(tokens[1..])
    else [tokens[0]] + Known(tokens[1..])
  }

  /** All other keys are ignored wherever they stand, among them the documented `nvrc.mode`, `nvrc.fm.mode` and
      `nvrc.fm.rail.policy`. */
  lemma {:induction false} OtherKeysIgnored(p: Progress, tokens: seq<Token>, writable: LogWritable)
    ensures Fold(p, tokens, writable) == Fold(p, Known(tokens), writable)
    ensures forall t <- Known(tokens) :: t.0 !in {"nvrc.mode", "nvrc.fm.mode", "nvrc.fm.rail.policy"}
    decreases |tokens|
  {
    if tokens != [] {
      var next := Apply(p, tokens[0], writable);
      OtherKeysIgnored(next, tokens[1..], writable);
      if Classify(tokens[0].0) == Other {
        OtherChangesNothing(p, tokens[0], writable);
      } else {
        assert ([tokens[0]] + Known(tokens[1..]))[1..] == Known(tokens[1..]);
        NotDocumentedOnly(tokens[0].0);
      }
    }
  }

  lemma OtherChangesNothing(p: Progress, t: Token, writable: LogWritable)
    requires Classify(t.0) == Other
    ensures Apply(p, t, writable) == p
  {
  }

  lemma NotDocumentedOnly(key: string)
    requires Classify(key) != Other
    ensures key !in {"nvrc.mode", "nvrc.fm.mode", "nvrc.fm.rail.policy"}
  {
  }

  // ---------- From the command line to nvidia-smi ----------

  /** `nvidia_smi_lgc` and its like: no command without a setting, and the number in decimal otherwise. */
  function SmiArgs(option: string, setting: Option<u32>): Option<seq<string>> {
    if setting.Some? then Some([option, Decimal(setting.value)]) else None
  }

  /** nvidia-smi is given the very number that the last `nvrc.smi.lgc`, `lmc` or `pl` on the command line
      denotes, however that one was written. */
  lemma SmiGetsTheNumber(p: Progress, tokens: seq<Token>, writable: LogWritable, param: Param, option: string)
    requires Fold(p, tokens, writable).error == None
    requires IsNumber(param) && Last(tokens, param).Some?
    ensures var s := Fold(p, tokens, writable).settings;
            var setting := if param == Lgc then s.lgc else if param == Lmc then s.lmc else s.pl;
            && SmiArgs(option, setting).Some?
            && ParseU32(SmiArgs(option, setting).value[1]) == ParseU32(Last(tokens, param).value)
  {
    LastWins(p, tokens, writable);
    FailsIfBad(p, tokens, writable, param);
    var n := ParseU32(Last(tokens, param).value);
    ParseOfDecimal(n.value, U32_LIMIT);
  }

  lemma FailsIfBad(p: Progress, tokens: seq<Token>, writable: LogWritable, param: Param)
    requires Fold(p, tokens, writable).error == None
    requires IsNumber(param) && Last(tokens, param).Some?
    ensures ParseU32(Last(tokens, param).value).Some?
  {
    if p.error.Some? {
      ErrorEndsFold(p, tokens, writable);
    } else {
      LastOccurs(tokens, Key(param));
      ClassifyIs(Key(param), param);
      FailsExactly(p, tokens, writable);
    }
  }
}
