/** The path validator's scanner and its display normaliser. */
module PathValidator {
  import opened Prelude

  datatype PathError =
    | NotAbsolute | ContainsParentTraversal | ContainsNullByte | ComponentTooLong | PathTooLong | InvalidCharacter | EmptyComponent

  datatype Config = Config(maxComponentLength: nat, maxPathLength: nat)

  // ---------------------------------------------------------------------------------------------
  // Splitting at slashes

  function Last(cs: seq<string>): string
    requires cs != []
  {
    cs[|cs| - 1]
  }

  function Front(cs: seq<string>): seq<string>
    requires cs != []
  {
    cs[..|cs| - 1]
  }

  /** One more character: a slash starts a new component, anything else extends the last one. */
  function Push(cs: seq<string>, c: char): (r: seq<string>)
    requires cs != []
    ensures r != []
  {
    if c == '/' then cs + [""] else Front(cs) + [Last(cs) + [c]]
  }

  /** The components between slashes, empty ones included; there is always at least one. */
  function Split(s: string): (cs: seq<string>)
    ensures cs != []
  {
    if s == [] then [""] else Push(Split(s[..|s| - 1]), s[|s| - 1])
  }

  predicate NoSlash(s: string) { forall i :: 0 <= i < |s| ==> s[i] != '/' }

  lemma SplitSnoc(s: string, c: char)
    ensures Split(s + [c]) == Push(Split(s), c)
  {
    assert (s + [c])[..|s|] == s;
  }

  lemma {:induction false} SplitNoSlash(s: string)
    requires NoSlash(s)
    ensures Split(s) == [s]
    decreases |s|
  {
    if s != [] {
      SplitNoSlash(s[..|s| - 1]);
      assert s[..|s| - 1] + [s[|s| - 1]] == s;
    }
  }

  lemma PushConcat(a: seq<string>, b: seq<string>, c: char)
    requires b != []
    ensures Push(a + b, c) == a + Push(b, c)
  {
    assert Front(a + b) == a + Front(b) && Last(a + b) == Last(b);
  }

  lemma {:induction false} SplitAtSlash(a: string, b: string, s: string)
    requires s == a + "/" + b
    ensures Split(s) == Split(a) + Split(b)
    decreases |b|
  {
    if b == [] {
      assert s == a + ['/'];
      SplitSnoc(a, '/');
    } else {
      var b', c := b[..|b| - 1], b[|b| - 1];
      var s' := a + "/" + b';
      SplitAtSlash(a, b', s');
      assert s == s' + [c];
      SplitSnoc(s', c);
      PushConcat(Split(a), Split(b'), c);
    }
  }

  lemma LastComponent(s: string)
    ensures Last(Split(s)) == "" <==> s == [] || s[|s| - 1] == '/'
  {
  }

  // ---------------------------------------------------------------------------------------------
  // Validation

  /** The default pattern `[A-Za-z0-9._\- ]`. */
  predicate Allowed(c: char)
  {
    'A' <= c <= 'Z' || 'a' <= c <= 'z' || '0' <= c <= '9' || c == '.' || c == '_' || c == '-' || c == ' '
  }

  predicate AllAllowed(s: string) { forall i :: 0 <= i < |s| ==> Allowed(s[i]) }

  function ComponentError(cfg: Config, c: string): Option<PathError>
  {
    if c == "" then Some(EmptyComponent)
    else if |c| > cfg.maxComponentLength then Some(ComponentTooLong)
    else if c == ".." then Some(ContainsParentTraversal)
    else if !AllAllowed(c) then Some(InvalidCharacter)
    else None
  }

  /** What is wrong with a component, if anything. */
  type Checker = string -> Option<PathError>

  function CheckerFor(cfg: Config): Checker { (c: string) => ComponentError(cfg, c) }

  function FirstError(check: Checker, cs: seq<string>): Option<PathError>
  {
    if cs == [] then None
    else if check(cs[0]).Some? then check(cs[0])
    else FirstError(check, cs[1..])
  }

  lemma {:induction false} FirstErrorNone(check: Checker, cs: seq<string>)
    ensures FirstError(check, cs).None? <==> forall i :: 0 <= i < |cs| ==> check(cs[i]).None?
    decreases |cs|
  {
    if cs != [] {
      FirstErrorNone(check, cs[1..]);
    }
  }

  /** One trailing slash is forgiven, and so is the lone slash of the root. */
  function Trim(cs: seq<string>): seq<string>
    requires cs != []
  {
    if Last(cs) == "" then Front(cs) else cs
  }

  predicate HasNull(s: string) { exists i :: 0 <= i < |s| && s[i] as int == 0 }

  /** The verdict on a path, said by splitting it at its slashes. */
  function Verdict(cfg: Config, path: string): Option<PathError>
  {
    if path == "" || path[0] != '/' then Some(NotAbsolute)
    else if |path| > cfg.maxPathLength then Some(PathTooLong)
    else if HasNull(path) then Some(ContainsNullByte)
    else FirstError(CheckerFor(cfg), Trim(Split(path[1..])))
  }

  /** The next slash, or the length if there is none. */
  function NextSlash(path: string, start: nat): (end: nat)
    requires start <= |path|
    ensures start <= end <= |path| && (end < |path| ==> path[end] == '/')
    ensures forall k :: start <= k < end ==> path[k] != '/'
    decreases |path| - start
  {
    if start == |path| || path[start] == '/' then start else NextSlash(path, start + 1)
  }

  /** `path.find('/', start)`, with the length for `npos`. */
  method Find(path: string, start: nat) returns (end: nat)
    requires start <= |path|
    ensures end == NextSlash(path, start)
  {
    end := start;
    while end < |path| && path[end] != '/'
      invariant start <= end <= |path| && NextSlash(path, start) == NextSlash(path, end)
    {
      end := end + 1;
    }
  }

  /** The scan from `start` on, component by component. */
  function Scanned(check: Checker, path: string, start: nat): Option<PathError>
    requires start <= |path|
    decreases |path| - start
  {
    if start == |path| then None
    else
      var end := NextSlash(path, start);
      var e := check(path[start..end]);
      if e.Some? || end == |path| then e else Scanned(check, path, end + 1)
  }

  lemma TrimCons(c: string, rest: seq<string>)
    requires rest != []
    ensures Trim([c] + rest) == [c] + Trim(rest)
  {
    assert Last([c] + rest) == Last(rest) && Front([c] + rest) == [c] + Front(rest);
  }

  lemma FirstErrorCons(check: Checker, c: string, cs: seq<string>)
    ensures FirstError(check, [c] + cs) == if check(c).Some? then check(c) else FirstError(check, cs)
  {
    assert ([c] + cs)[1..] == cs;
  }

  /** The components from `start` on, found by looking for the next slash. */
  function Components(path: string, start: nat): (cs: seq<string>)
    requires start <= |path|
    ensures cs != []
    decreases |path| - start
  {
    var end := NextSlash(path, start);
    if end == |path| then [path[start..]] else [path[start..end]] + Components(path, end + 1)
  }

  lemma CutAtSlash(path: string, start: nat, end: nat)
    requires start <= end < |path| && path[end] == '/'
    ensures path[start..] == path[start..end] + "/" + path[end + 1..]
  {
  }

  /** They are what splitting gives. */
  lemma {:induction false} ComponentsAreSplit(path: string, start: nat)
    requires start <= |path|
    ensures Components(path, start) == Split(path[start..])
    decreases |path| - start
  {
    var end := NextSlash(path, start);
    if end == |path| {
      SplitNoSlash(path[start..]);
    } else {
      CutAtSlash(path, start, end);
      SplitNoSlash(path[start..end]);
      SplitAtSlash(path[start..end], path[end + 1..], path[start..]);
      ComponentsAreSplit(path, end + 1);
    }
  }

  lemma OneComponent(check: Checker, c: string)
    ensures FirstError(check, Trim([c])) == if c == "" then None else check(c)
  {
    assert [c][1..] == [];
  }

  lemma HeadError(check: Checker, c: string, rest: seq<string>, cs: seq<string>, e: Option<PathError>)
    requires rest != [] && cs == [c] + rest && e == FirstError(check, Trim(rest))
    ensures FirstError(check, Trim(cs)) == if check(c).Some? then check(c) else e
  {
    TrimCons(c, rest);
    FirstErrorCons(check, c, Trim(rest));
  }

  lemma ScanHead(check: Checker, path: string, start: nat, end: nat)
    requires start <= end <= |path| && end == NextSlash(path, start)
    ensures end == |path| ==> Components(path, start) == [path[start..end]]
    ensures end < |path| ==> Components(path, start) == [path[start..end]] + Components(path, end + 1)
    ensures Scanned(check, path, start) ==
            if start == |path| then None
            else if check(path[start..end]).Some? || end == |path| then check(path[start..end])
            else Scanned(check, path, end + 1)
  {
    assert end == |path| ==> path[start..] == path[start..end];
  }

  /** Scanning finds the first error among them, one trailing slash forgiven. */
  lemma {:induction false} ScanFindsFirstError(check: Checker, path: string, start: nat, cs: seq<string>)
    requires start <= |path| && cs == Components(path, start)
    ensures Scanned(check, path, start) == FirstError(check, Trim(cs))
    decreases |path| - start
  {
    var end := NextSlash(path, start);
    ScanHead(check, path, start, end);
    if end == |path| {
      OneComponent(check, path[start..end]);
    } else {
      var rest := Components(path, end + 1);
      ScanFindsFirstError(check, path, end + 1, rest);
      HeadError(check, path[start..end], rest, cs, Scanned(check, path, end + 1));
    }
  }

  method CheckComponent(cfg: Config, component: string) returns (r: Option<PathError>)
    ensures r == CheckerFor(cfg)(component)
  {
    if component == "" { return Some(EmptyComponent); }
    if |component| > cfg.maxComponentLength { return Some(ComponentTooLong); }
    if component == ".." { return Some(ContainsParentTraversal); }
    if !AllAllowed(component) { return Some(InvalidCharacter); }
    r := None;
  }

  method FindNull(path: string) returns (found: bool)
    ensures found == HasNull(path)
  {
    for i := 0 to |path|
      invariant forall k :: 0 <= k < i ==> path[k] as int != 0
    {
      if path[i] as int == 0 { return true; }
    }
    found := false;
  }

  /** The component loop. */
  method ScanComponents(cfg: Config, path: string) returns (r: Option<PathError>)
    requires path != ""
    ensures r == Scanned(CheckerFor(cfg), path, 1)
  {
    var start := 1;
    while start < |path|
      invariant 1 <= start <= |path|
      invariant Scanned(CheckerFor(cfg), path, 1) == Scanned(CheckerFor(cfg), path, start)
    {
      var end := Find(path, start);
      r := CheckComponent(cfg, path[start..end]);
      if r.Some? || end == |path| { return; }
      start := end + 1;
    }
    r := None;
  }

  /** The index-based scan gives exactly the verdict of the split-on-slash specification. */
  method Validate(cfg: Config, path: string) returns (r: Option<PathError>)
    ensures r == Verdict(cfg, path)
  {
    if path == "" || path[0] != '/' { return Some(NotAbsolute); }
    if |path| > cfg.maxPathLength { return Some(PathTooLong); }
    var found := FindNull(path);
    if found { return Some(ContainsNullByte); }
    ComponentsAreSplit(path, 1);
    ScanFindsFirstError(CheckerFor(cfg), path, 1, Components(path, 1));
    if path == "/" { return None; }
    r := ScanComponents(cfg, path);
  }

  /** A path is accepted exactly if it is absolute, short enough, free of NUL, and all its components,
      but for the empty one after a trailing slash, are good. */
  lemma Accepted(cfg: Config, path: string)
    ensures Verdict(cfg, path).None? <==>
      && path != "" && path[0] == '/' && |path| <= cfg.maxPathLength && !HasNull(path)
      && var cs := Trim(Split(path[1..]));
         forall i :: 0 <= i < |cs| ==>
           cs[i] != "" && cs[i] != ".." && |cs[i]| <= cfg.maxComponentLength && AllAllowed(cs[i])
  {
    if path != "" {
      FirstErrorNone(CheckerFor(cfg), Trim(Split(path[1..])));
    }
  }

  /** Why a single component is rejected. */
  predicate BadAs(cfg: Config, c: string, e: PathError)
  {
    match e
    case EmptyComponent => |c| == 0
    case ComponentTooLong => |c| > 0 && |c| > cfg.maxComponentLength
    case ContainsParentTraversal => c == ".." && cfg.maxComponentLength >= 2
    case InvalidCharacter => 0 < |c| <= cfg.maxComponentLength && c != ".." && exists i :: 0 <= i < |c| && !Allowed(c[i])
    case _ => false
  }

  /** The `k`-th component is the first one that is rejected, and it is rejected for `e`. */
  predicate FirstBadComponent(cfg: Config, cs: seq<string>, k: nat, e: PathError)
  {
    && k < |cs| && BadAs(cfg, cs[k], e)
    && forall i :: 0 <= i < k ==>
         cs[i] != "" && cs[i] != ".." && |cs[i]| <= cfg.maxComponentLength && AllAllowed(cs[i])
  }

  lemma {:induction false} FirstErrorIs(cfg: Config, cs: seq<string>, e: PathError) returns (k: nat)
    requires FirstError(CheckerFor(cfg), cs) == Some(e)
    ensures FirstBadComponent(cfg, cs, k, e)
    decreases |cs|
  {
    if CheckerFor(cfg)(cs[0]).Some? {
      k := 0;
    } else {
      var k' := FirstErrorIs(cfg, cs[1..], e);
      k := k' + 1;
      assert forall i :: 0 < i < k ==> cs[i] == cs[1..][i - 1];
    }
  }

  /** What each error says about the path: the earlier tests were passed, and for a component error, which
      component is the first bad one and what is wrong with it. */
  lemma RejectionMeaning(cfg: Config, path: string, e: PathError)
    requires Verdict(cfg, path) == Some(e)
    ensures e == NotAbsolute <==> path == "" || path[0] != '/'
    ensures e == PathTooLong <==> path != "" && path[0] == '/' && |path| > cfg.maxPathLength
    ensures e == ContainsNullByte <==> path != "" && path[0] == '/' && |path| <= cfg.maxPathLength && HasNull(path)
    ensures e != NotAbsolute && e != PathTooLong && e != ContainsNullByte ==>
      path != "" && exists k :: FirstBadComponent(cfg, Trim(Split(path[1..])), k, e)
  {
    if path != "" && path[0] == '/' && |path| <= cfg.maxPathLength && !HasNull(path) {
      var k := FirstErrorIs(cfg, Trim(Split(path[1..])), e);
      assert BadAs(cfg, Trim(Split(path[1..]))[k], e);
    }
  }

  lemma Uppercase(c: char)
    ensures 'A' <= c <= 'Z' <==> c in "ABCDEFGHIJKLMNOPQRSTUVWXYZ"
  {
    var s := "ABCDEFGHIJKLMNOPQRSTUVWXYZ";
    if 'A' <= c <= 'Z' {
      assert s[c as int - 'A' as int] == c;
    }
  }

  lemma Lowercase(c: char)
    ensures 'a' <= c <= 'z' <==> c in "abcdefghijklmnopqrstuvwxyz"
  {
    var s := "abcdefghijklmnopqrstuvwxyz";
    if 'a' <= c <= 'z' {
      assert s[c as int - 'a' as int] == c;
    }
  }

  /** The characters of the default pattern, one by one. */
  lemma AllowedExactly(c: char)
    ensures Allowed(c) <==>
      || c in "ABCDEFGHIJKLMNOPQRSTUVWXYZ" || c in "abcdefghijklmnopqrstuvwxyz"
      || c in "0123456789" || c in "._- "
  {
    Uppercase(c);
    Lowercase(c);
    var s := "0123456789";
    if '0' <= c <= '9' {
      assert s[c as int - '0' as int] == c;
    }
  }

  // ---------------------------------------------------------------------------------------------
  // Normalisation

  /** Drop every slash that follows a slash. */
  function Squeeze(s: string): (r: string)
    ensures s != "" ==> r != "" && r[0] == s[0] && r[|r| - 1] == s[|s| - 1]
  {
    if |s| <= 1 then s
    else
      var r := Squeeze(s[..|s| - 1]);
      var c := s[|s| - 1];
      if c == '/' && r[|r| - 1] == '/' then r else r + [c]
  }

  method NormalizeForDisplay(path: string) returns (result: string)
    ensures result == Squeeze(path)
  {
    if path == "" { return ""; }
    result := [path[0]];
    for i := 1 to |path|
      invariant result == Squeeze(path[..i])
    {
      assert path[..i + 1][..i] == path[..i];
      if path[i] == '/' && result[|result| - 1] == '/' { continue; }
      result := result + [path[i]];
    }
    assert path[..|path|] == path;
  }

  predicate NoDoubleSlash(s: string)
  {
    forall i :: 0 <= i < |s| - 1 ==> !(s[i] == '/' && s[i + 1] == '/')
  }

  lemma {:induction false} SqueezeClean(s: string)
    ensures NoDoubleSlash(Squeeze(s))
    decreases |s|
  {
    if |s| > 1 {
      SqueezeClean(s[..|s| - 1]);
    }
  }

  /** Normalising is the identity exactly on paths without a double slash. */
  lemma {:induction false} SqueezeIdentity(s: string)
    ensures Squeeze(s) == s <==> NoDoubleSlash(s)
    decreases |s|
  {
    if NoDoubleSlash(s) && |s| > 1 {
      SqueezeIdentity(s[..|s| - 1]);
      assert s[|s| - 2] == '/' ==> s[|s| - 1] != '/';
      assert s == s[..|s| - 1] + [s[|s| - 1]];
    }
    SqueezeClean(s);
  }

  lemma SqueezeIdempotent(s: string)
    ensures Squeeze(Squeeze(s)) == Squeeze(s)
  {
    SqueezeClean(s);
    SqueezeIdentity(Squeeze(s));
  }

  /** The components that are not empty. */
  function Words(cs: seq<string>): seq<string>
  {
    if cs == [] then [] else Words(Front(cs)) + (if Last(cs) == "" then [] else [Last(cs)])
  }

  /** The same finished words and the same word under way. */
  ghost predicate SameWords(a: seq<string>, b: seq<string>)
    requires a != [] && b != []
  {
    Words(Front(a)) == Words(Front(b)) && Last(a) == Last(b)
  }

  lemma SameWordsMeaning(a: seq<string>, b: seq<string>)
    requires a != [] && b != [] && SameWords(a, b)
    ensures Words(a) == Words(b)
  {
  }

  lemma SameWordsPush(a: seq<string>, b: seq<string>, c: char)
    requires a != [] && b != [] && SameWords(a, b)
    ensures SameWords(Push(a, c), Push(b, c))
  {
    SameWordsMeaning(a, b);
    if c == '/' {
      assert Front(a + [""]) == a && Front(b + [""]) == b;
    } else {
      assert Front(Push(a, c)) == Front(a) && Front(Push(b, c)) == Front(b);
    }
  }

  /** A slash after a slash adds no word. */
  lemma SlashAfterSlash(cs: seq<string>)
    requires cs != [] && Last(cs) == ""
    ensures SameWords(cs, Push(cs, '/'))
  {
    assert Front(cs + [""]) == cs;
  }

  lemma {:induction false} SqueezeSameWords(s: string)
    ensures SameWords(Split(Squeeze(s)), Split(s))
    decreases |s|
  {
    if |s| > 1 {
      var init, c := s[..|s| - 1], s[|s| - 1];
      var r := Squeeze(init);
      SqueezeSameWords(init);
      if c == '/' && r[|r| - 1] == '/' {
        LastComponent(r);
        LastComponent(init);
        SlashAfterSlash(Split(init));
      } else {
        SplitSnoc(r, c);
        SameWordsPush(Split(r), Split(init), c);
      }
    }
  }

  /** Normalising keeps the sequence of non-empty components. */
  lemma SqueezeKeepsWords(s: string)
    ensures Words(Split(Squeeze(s))) == Words(Split(s))
  {
    SqueezeSameWords(s);
    SameWordsMeaning(Split(Squeeze(s)), Split(s));
  }

  lemma NoDoubleSnoc(q: string, c: char)
    requires q != ""
    ensures NoDoubleSlash(q + [c]) <==> NoDoubleSlash(q) && !(q[|q| - 1] == '/' && c == '/')
  {
    var p := q + [c];
    if NoDoubleSlash(p) {
      forall i | 0 <= i < |q| - 1 ensures !(q[i] == '/' && q[i + 1] == '/') {
        assert p[i] == q[i] && p[i + 1] == q[i + 1];
      }
      assert p[|q| - 1] == q[|q| - 1] && p[|q|] == c;
    }
  }

  /** No component is empty, except possibly the last. */
  predicate FrontFull(cs: seq<string>) { forall i :: 0 <= i < |cs| - 1 ==> cs[i] != "" }

  lemma FullPush(cs: seq<string>, c: char)
    requires cs != []
    ensures FrontFull(Push(cs, c)) <==> FrontFull(cs) && !(c == '/' && Last(cs) == "")
  {
    var r := Push(cs, c);
    assert forall i :: 0 <= i < |cs| - 1 ==> r[i] == cs[i];
    if c == '/' {
      assert r[|cs| - 1] == Last(cs);
    }
  }

  /** After its leading slash, a path has no empty component but possibly the last exactly if it has no double slash. */
  lemma {:induction false} NoEmptyMeansNoDouble(s: string)
    ensures FrontFull(Split(s)) <==> NoDoubleSlash("/" + s)
    decreases |s|
  {
    if s != [] {
      var n := |s| - 1;
      var init, c := s[..n], s[n];
      NoEmptyMeansNoDouble(init);
      LastComponent(init);
      NoDoubleSnoc("/" + init, c);
      assert s == init + [c] && "/" + s == ("/" + init) + [c];
      FullPush(Split(init), c);
    }
  }

  /** The scanner and the normaliser agree: every accepted path is already in display form. */
  lemma AcceptedIsNormal(cfg: Config, path: string)
    requires Verdict(cfg, path).None?
    ensures Squeeze(path) == path
  {
    var s := path[1..];
    var cs := Split(s);
    var t := Trim(cs);
    FirstErrorNone(CheckerFor(cfg), t);
    forall i | 0 <= i < |cs| - 1 ensures cs[i] != "" {
      assert CheckerFor(cfg)(t[i]).None? && t[i] == cs[i];
    }
    assert FrontFull(cs);
    NoEmptyMeansNoDouble(s);
    assert "/" + s == path;
    SqueezeIdentity(path);
  }

  /** And normalising cures an absolute path of empty components. */
  lemma NormalHasNoEmptyComponent(cfg: Config, path: string)
    requires path != "" && path[0] == '/'
    ensures Verdict(cfg, Squeeze(path)) != Some(EmptyComponent)
  {
    var p := Squeeze(path);
    SqueezeClean(path);
    assert p == "/" + p[1..];
    NoEmptyMeansNoDouble(p[1..]);
    FullTrim(Split(p[1..]));
    NoEmptyNoError(cfg, Trim(Split(p[1..])));
  }

  lemma FullTrim(cs: seq<string>)
    requires cs != [] && FrontFull(cs)
    ensures forall i :: 0 <= i < |Trim(cs)| ==> Trim(cs)[i] != ""
  {
  }

  lemma {:induction false} NoEmptyNoError(cfg: Config, cs: seq<string>)
    requires forall i :: 0 <= i < |cs| ==> cs[i] != ""
    ensures FirstError(CheckerFor(cfg), cs) != Some(EmptyComponent)
    decreases |cs|
  {
    if cs != [] {
      NoEmptyNoError(cfg, cs[1..]);
    }
  }
}
