/** SPDX license expressions: the grammar, a recursive-descent parser over a
    token list, and the verdict it computes. */
module Licenses {
  import opened Prelude

  const ALLOWED: set<string> := {
    "0BSD", "Apache-2.0", "BSD-2-Clause", "BSD-3-Clause", "BSL-1.0", "CC0-1.0", "CDLA-Permissive-2.0",
    "ISC", "MIT", "MIT-0", "MPL-2.0", "Unicode-3.0", "Unlicense", "Zlib" }

  const REVIEWED_DENIED: set<string> := {
    "AGPL-3.0", "AGPL-3.0-only", "AGPL-3.0-or-later", "EUPL-1.2", "GPL-2.0", "GPL-2.0-only",
    "GPL-2.0-or-later", "GPL-3.0", "GPL-3.0-only", "GPL-3.0-or-later", "LGPL-2.1-only",
    "LGPL-2.1-or-later", "LGPL-3.0-only", "LGPL-3.0-or-later", "SSPL-1.0" }

  const OPEN := "("
  const CLOSE := ")"
  const AND := "AND"
  const OR := "OR"
  const WITH := "WITH"

  // --------------------------------------------------------------- grammar

  /** Alternatives, then conjunctions, then primaries. */
  datatype OrExpr = LastTerm(term: AndExpr) | OrMore(term: AndExpr, rest: OrExpr)

  datatype AndExpr = LastFactor(factor: Primary) | AndMore(factor: Primary, rest: AndExpr)

  datatype Primary = License(id: string) | LicenseWith(id: string, exception: string) | Paren(inner: OrExpr)

  predicate IsId(token: string) {
    token != OPEN && token != CLOSE && token != AND && token != OR && token != WITH
  }

  /** Identifiers are not keywords; an exception name may be any token. */
  predicate WellFormedOr(e: OrExpr) {
    WellFormedAnd(e.term) && (e.OrMore? ==> WellFormedOr(e.rest))
  }

  predicate WellFormedAnd(e: AndExpr) {
    WellFormedPrimary(e.factor) && (e.AndMore? ==> WellFormedAnd(e.rest))
  }

  predicate WellFormedPrimary(p: Primary) {
    if p.Paren? then WellFormedOr(p.inner) else IsId(p.id)
  }

  /** The tokens an expression is written with. */
  function SpellOr(e: OrExpr): seq<string> {
    if e.LastTerm? then SpellAnd(e.term) else SpellAnd(e.term) + [OR] + SpellOr(e.rest)
  }

  function SpellAnd(e: AndExpr): seq<string> {
    if e.LastFactor? then SpellPrimary(e.factor) else SpellPrimary(e.factor) + [AND] + SpellAnd(e.rest)
  }

  function SpellPrimary(p: Primary): seq<string> {
    match p
    case License(id) => [id]
    case LicenseWith(id, exception) => [id, WITH, exception]
    case Paren(inner) => [OPEN] + SpellOr(inner) + [CLOSE]
  }

  // --------------------------------------------------------------- verdict

  datatype Verdict = Verdict(satisfiable: bool, unknown: set<string>) {
    function And(other: Verdict): Verdict {
      Verdict(satisfiable && other.satisfiable, unknown + other.unknown)
    }

    function Or(other: Verdict): Verdict {
      Verdict(satisfiable || other.satisfiable, unknown + other.unknown)
    }
  }

  function LicenseVerdict(id: string): Verdict {
    if id in ALLOWED then Verdict(true, {})
    else if id in REVIEWED_DENIED then Verdict(false, {})
    else Verdict(false, {id})
  }

  function ExceptionVerdict(id: string, exception: string): Verdict {
    var combined := id + " WITH " + exception;
    if combined == "Apache-2.0 WITH LLVM-exception" then Verdict(true, {}) else Verdict(false, {combined})
  }

  /** Whether an approved choice of alternatives exists. */
  predicate SatisfiableOr(e: OrExpr) {
    SatisfiableAnd(e.term) || (e.OrMore? && SatisfiableOr(e.rest))
  }

  predicate SatisfiableAnd(e: AndExpr) {
    SatisfiablePrimary(e.factor) && (e.AndMore? ==> SatisfiableAnd(e.rest))
  }

  predicate SatisfiablePrimary(p: Primary) {
    match p
    case License(id) => LicenseVerdict(id).satisfiable
    case LicenseWith(id, exception) => ExceptionVerdict(id, exception).satisfiable
    case Paren(inner) => SatisfiableOr(inner)
  }

  /** The leaves nobody has reviewed. */
  function UnknownOr(e: OrExpr): set<string> {
    if e.OrMore? then UnknownAnd(e.term) + UnknownOr(e.rest) else UnknownAnd(e.term)
  }

  function UnknownAnd(e: AndExpr): set<string> {
    if e.AndMore? then UnknownPrimary(e.factor) + UnknownAnd(e.rest) else UnknownPrimary(e.factor)
  }

  function UnknownPrimary(p: Primary): set<string> {
    match p
    case License(id) => LicenseVerdict(id).unknown
    case LicenseWith(id, exception) => ExceptionVerdict(id, exception).unknown
    case Paren(inner) => UnknownOr(inner)
  }

  function VerdictOr(e: OrExpr): Verdict {
    Verdict(SatisfiableOr(e), UnknownOr(e))
  }

  function VerdictAnd(e: AndExpr): Verdict {
    Verdict(SatisfiableAnd(e), UnknownAnd(e))
  }

  function VerdictPrimary(p: Primary): Verdict {
    Verdict(SatisfiablePrimary(p), UnknownPrimary(p))
  }

  // ------------------------------------------------------- what a verdict means

  /** The ways to meet an expression, each as the leaves it uses: one alternative
      at every OR, all of them at every AND. */
  ghost function ChoicesOr(e: OrExpr): set<set<Primary>> {
    if e.LastTerm? then ChoicesAnd(e.term) else ChoicesAnd(e.term) + ChoicesOr(e.rest)
  }

  ghost function ChoicesAnd(e: AndExpr): set<set<Primary>> {
    if e.LastFactor? then ChoicesPrimary(e.factor)
    else set x, y | x in ChoicesPrimary(e.factor) && y in ChoicesAnd(e.rest) :: x + y
  }

  ghost function ChoicesPrimary(p: Primary): set<set<Primary>> {
    if p.Paren? then ChoicesOr(p.inner) else {{p}}
  }

  /** The leaves of an expression. */
  ghost function LeavesOr(e: OrExpr): set<Primary> {
    LeavesAnd(e.term) + if e.OrMore? then LeavesOr(e.rest) else {}
  }

  ghost function LeavesAnd(e: AndExpr): set<Primary> {
    LeavesPrimary(e.factor) + if e.AndMore? then LeavesAnd(e.rest) else {}
  }

  ghost function LeavesPrimary(p: Primary): set<Primary> {
    if p.Paren? then LeavesOr(p.inner) else {p}
  }

  /** The leaf may be used. */
  predicate Approved(p: Primary) {
    (p.License? && p.id in ALLOWED) || p == LicenseWith("Apache-2.0", "LLVM-exception")
  }

  ghost predicate Meetable(choices: set<set<Primary>>) {
    exists choice :: choice in choices && AllApproved(choice)
  }

  ghost predicate AllApproved(choice: set<Primary>) {
    forall p :: p in choice ==> Approved(p)
  }

  lemma PairIsUnique(id: string, exception: string)
    ensures id + " WITH " + exception == "Apache-2.0 WITH LLVM-exception" <==>
            id == "Apache-2.0" && exception == "LLVM-exception"
  {
    var combined, pair := id + " WITH " + exception, "Apache-2.0 WITH LLVM-exception";
    if combined == pair {
      assert pair[|id|] == combined[|id|] == ' ' && pair[|id| + 1] == combined[|id| + 1] == 'W';
      assert |id| == 10;
      assert id == combined[..10] == pair[..10];
      assert exception == combined[16..] == pair[16..];
    }
  }

  /** A leaf is satisfiable if and only if it is approved, and unknown if and only
      if nobody reviewed it. */
  lemma LeafMeans(p: Primary)
    requires !p.Paren?
    ensures SatisfiablePrimary(p) <==> Approved(p)
    ensures UnknownPrimary(p) ==
            if p.License? && p.id !in ALLOWED && p.id !in REVIEWED_DENIED then {p.id}
            else if p.LicenseWith? && p != LicenseWith("Apache-2.0", "LLVM-exception")
            then {p.id + " WITH " + p.exception} else {}
  {
    if p.LicenseWith? {
      PairIsUnique(p.id, p.exception);
    }
  }

  lemma {:induction false} OrIsMeetable(e: OrExpr)
    ensures SatisfiableOr(e) <==> Meetable(ChoicesOr(e))
  {
    hide Approved;
    AndIsMeetable(e.term);
    if e.OrMore? {
      OrIsMeetable(e.rest);
    }
  }

  lemma {:induction false} AndIsMeetable(e: AndExpr)
    ensures SatisfiableAnd(e) <==> Meetable(ChoicesAnd(e))
  {
    hide Approved;
    PrimaryIsMeetable(e.factor);
    if e.AndMore? {
      AndIsMeetable(e.rest);
      var xs, ys := ChoicesPrimary(e.factor), ChoicesAnd(e.rest);
      if Meetable(xs) && Meetable(ys) {
        var x :| x in xs && AllApproved(x);
        var y :| y in ys && AllApproved(y);
        assert x + y in ChoicesAnd(e) && AllApproved(x + y);
      }
      if Meetable(ChoicesAnd(e)) {
        var choice :| choice in ChoicesAnd(e) && AllApproved(choice);
        var x, y :| x in xs && y in ys && choice == x + y;
        assert AllApproved(x) && AllApproved(y);
      }
    }
  }

  lemma {:induction false} PrimaryIsMeetable(p: Primary)
    ensures SatisfiablePrimary(p) <==> Meetable(ChoicesPrimary(p))
  {
    if p.Paren? {
      OrIsMeetable(p.inner);
    } else {
      LeafMeans(p);
      assert {p} in ChoicesPrimary(p);
    }
  }

  /** The names of the leaves nobody reviewed. */
  ghost function Unreviewed(leaves: set<Primary>): set<string> {
    (set p | p in leaves && p.License? && p.id !in ALLOWED && p.id !in REVIEWED_DENIED :: p.id)
    + (set p | p in leaves && p.LicenseWith? && p != LicenseWith("Apache-2.0", "LLVM-exception")
         :: p.id + " WITH " + p.exception)
  }

  lemma {:induction false} OrIsUnreviewed(e: OrExpr)
    ensures UnknownOr(e) == Unreviewed(LeavesOr(e))
  {
    AndIsUnreviewed(e.term);
    if e.OrMore? {
      OrIsUnreviewed(e.rest);
      UnreviewedJoins(LeavesAnd(e.term), LeavesOr(e.rest));
    }
  }

  lemma {:induction false} AndIsUnreviewed(e: AndExpr)
    ensures UnknownAnd(e) == Unreviewed(LeavesAnd(e))
  {
    PrimaryIsUnreviewed(e.factor);
    if e.AndMore? {
      AndIsUnreviewed(e.rest);
      UnreviewedJoins(LeavesPrimary(e.factor), LeavesAnd(e.rest));
    }
  }

  lemma {:induction false} PrimaryIsUnreviewed(p: Primary)
    ensures UnknownPrimary(p) == Unreviewed(LeavesPrimary(p))
  {
    if p.Paren? {
      OrIsUnreviewed(p.inner);
    } else {
      LeafMeans(p);
    }
  }

  lemma UnreviewedJoins(a: set<Primary>, b: set<Primary>)
    ensures Unreviewed(a + b) == Unreviewed(a) + Unreviewed(b)
  {
  }

  /** Boolean evaluation and the union of the unknown leaves, told from the two
      tables alone. */
  lemma VerdictMeans(e: OrExpr)
    ensures VerdictOr(e).satisfiable <==>
            exists choice :: choice in ChoicesOr(e) && forall p :: p in choice ==>
              (p.License? && p.id in ALLOWED) || p == LicenseWith("Apache-2.0", "LLVM-exception")
    ensures VerdictOr(e).unknown ==
            (set p | p in LeavesOr(e) && p.License? && p.id !in ALLOWED && p.id !in REVIEWED_DENIED :: p.id)
            + (set p | p in LeavesOr(e) && p.LicenseWith? && p != LicenseWith("Apache-2.0", "LLVM-exception")
                 :: p.id + " WITH " + p.exception)
  {
    OrIsMeetable(e);
    OrIsUnreviewed(e);
    assert Meetable(ChoicesOr(e)) <==>
           exists choice :: choice in ChoicesOr(e) && forall p :: p in choice ==>
             (p.License? && p.id in ALLOWED) || p == LicenseWith("Apache-2.0", "LLVM-exception");
  }

  // ---------------------------------------------------------------- parsing

  function Peek(tokens: seq<string>, i: nat): Option<string> {
    if i < |tokens| then Some(tokens[i]) else None
  }

  /** The longest alternative list that starts at `i`, and where it ends. */
  function ParseOr(tokens: seq<string>, i: nat): (r: Option<(OrExpr, nat)>)
    ensures r.Some? ==> i < r.value.1 <= |tokens|
    decreases |tokens| - i, 2
  {
    if i >= |tokens| then None else
    var first := ParseAnd(tokens, i);
    if first.None? then None
    else
      var (term, j) := first.value;
      if Peek(tokens, j) != Some(OR) then Some((LastTerm(term), j))
      else
        var more := ParseOr(tokens, j + 1);
        if more.None? then None else Some((OrMore(term, more.value.0), more.value.1))
  }

  function ParseAnd(tokens: seq<string>, i: nat): (r: Option<(AndExpr, nat)>)
    ensures r.Some? ==> i < r.value.1 <= |tokens|
    decreases |tokens| - i, 1
  {
    if i >= |tokens| then None else
    var first := ParsePrimary(tokens, i);
    if first.None? then None
    else
      var (factor, j) := first.value;
      if Peek(tokens, j) != Some(AND) then Some((LastFactor(factor), j))
      else
        var more := ParseAnd(tokens, j + 1);
        if more.None? then None else Some((AndMore(factor, more.value.0), more.value.1))
  }

  function ParsePrimary(tokens: seq<string>, i: nat): (r: Option<(Primary, nat)>)
    ensures r.Some? ==> i < r.value.1 <= |tokens|
    decreases |tokens| - i, 0
  {
    if i >= |tokens| then None
    else if tokens[i] == OPEN then
      var inner := ParseOr(tokens, i + 1);
      if inner.Some? && Peek(tokens, inner.value.1) == Some(CLOSE)
      then Some((Paren(inner.value.0), inner.value.1 + 1)) else None
    else if !IsId(tokens[i]) then None
    else if Peek(tokens, i + 1) == Some(WITH) then
      if i + 2 < |tokens| then Some((LicenseWith(tokens[i], tokens[i + 2]), i + 3)) else None
    else Some((License(tokens[i]), i + 1))
  }

  /** A parse that consumes every token. */
  function Parse(tokens: seq<string>): Option<OrExpr> {
    var r := ParseOr(tokens, 0);
    if r.Some? && r.value.1 == |tokens| then Some(r.value.0) else None
  }

  // ------------------------------------------------- the parser is the grammar

  lemma Spliced(tokens: seq<string>, i: nat, j: nat, k: nat)
    requires i <= j < k <= |tokens|
    ensures tokens[i..k] == tokens[i..j] + [tokens[j]] + tokens[j + 1..k]
  {
  }

  lemma {:induction false} OrIsSpelled(tokens: seq<string>, i: nat)
    requires ParseOr(tokens, i).Some?
    ensures var (e, j) := ParseOr(tokens, i).value; WellFormedOr(e) && SpellOr(e) == tokens[i..j]
    decreases |tokens| - i, 2
  {
    var (term, j) := ParseAnd(tokens, i).value;
    AndIsSpelled(tokens, i);
    if Peek(tokens, j) == Some(OR) {
      OrIsSpelled(tokens, j + 1);
      Spliced(tokens, i, j, ParseOr(tokens, j + 1).value.1);
    }
  }

  lemma {:induction false} AndIsSpelled(tokens: seq<string>, i: nat)
    requires ParseAnd(tokens, i).Some?
    ensures var (e, j) := ParseAnd(tokens, i).value; WellFormedAnd(e) && SpellAnd(e) == tokens[i..j]
    decreases |tokens| - i, 1
  {
    var (factor, j) := ParsePrimary(tokens, i).value;
    PrimaryIsSpelled(tokens, i);
    if Peek(tokens, j) == Some(AND) {
      AndIsSpelled(tokens, j + 1);
      Spliced(tokens, i, j, ParseAnd(tokens, j + 1).value.1);
    }
  }

  lemma {:induction false} PrimaryIsSpelled(tokens: seq<string>, i: nat)
    requires ParsePrimary(tokens, i).Some?
    ensures var (p, j) := ParsePrimary(tokens, i).value; WellFormedPrimary(p) && SpellPrimary(p) == tokens[i..j]
    decreases |tokens| - i, 0
  {
    if tokens[i] == OPEN {
      OrIsSpelled(tokens, i + 1);
    }
  }

  /** `part` is written in `tokens` from `i` on. */
  ghost predicate At(tokens: seq<string>, i: nat, part: seq<string>) {
    i + |part| <= |tokens| && tokens[i..i + |part|] == part
  }

  lemma AtParts(tokens: seq<string>, i: nat, a: seq<string>, sep: string, b: seq<string>)
    requires At(tokens, i, a + [sep] + b)
    ensures At(tokens, i, a) && Peek(tokens, i + |a|) == Some(sep) && At(tokens, i + |a| + 1, b)
  {
    var whole := tokens[i..i + |a| + 1 + |b|];
    assert whole == a + [sep] + b;
    assert tokens[i..i + |a|] == whole[..|a|];
    assert tokens[i + |a|] == whole[|a|];
    assert tokens[i + |a| + 1..i + |a| + 1 + |b|] == whole[|a| + 1..];
  }

  lemma {:induction false} OrIsParsed(tokens: seq<string>, i: nat, e: OrExpr)
    requires WellFormedOr(e) && At(tokens, i, SpellOr(e))
    requires Peek(tokens, i + |SpellOr(e)|) !in {Some(OR), Some(AND), Some(WITH)}
    ensures ParseOr(tokens, i) == Some((e, i + |SpellOr(e)|))
    decreases e, 2
  {
    hide ParseAnd, SpellAnd, WellFormedAnd, At;
    if e.LastTerm? {
      AndIsParsed(tokens, i, e.term);
    } else {
      AtParts(tokens, i, SpellAnd(e.term), OR, SpellOr(e.rest));
      AndIsParsed(tokens, i, e.term);
      OrIsParsed(tokens, i + |SpellAnd(e.term)| + 1, e.rest);
    }
  }

  lemma {:induction false} AndIsParsed(tokens: seq<string>, i: nat, e: AndExpr)
    requires WellFormedAnd(e) && At(tokens, i, SpellAnd(e))
    requires Peek(tokens, i + |SpellAnd(e)|) !in {Some(AND), Some(WITH)}
    ensures ParseAnd(tokens, i) == Some((e, i + |SpellAnd(e)|))
    decreases e, 1
  {
    hide ParsePrimary, SpellPrimary, WellFormedPrimary, At;
    if e.LastFactor? {
      PrimaryIsParsed(tokens, i, e.factor);
    } else {
      AtParts(tokens, i, SpellPrimary(e.factor), AND, SpellAnd(e.rest));
      PrimaryIsParsed(tokens, i, e.factor);
      AndIsParsed(tokens, i + |SpellPrimary(e.factor)| + 1, e.rest);
    }
  }

  lemma {:induction false} PrimaryIsParsed(tokens: seq<string>, i: nat, p: Primary)
    requires WellFormedPrimary(p) && At(tokens, i, SpellPrimary(p))
    requires Peek(tokens, i + |SpellPrimary(p)|) != Some(WITH)
    ensures ParsePrimary(tokens, i) == Some((p, i + |SpellPrimary(p)|))
    decreases p, 0
  {
    if p.Paren? {
      hide SpellOr, ParseOr, WellFormedOr, At;
      ParenParts(tokens, i, p.inner);
      OrIsParsed(tokens, i + 1, p.inner);
    } else {
      hide ParseOr;
      var here := tokens[i..i + |SpellPrimary(p)|];
      assert forall k :: 0 <= k < |here| ==> here[k] == tokens[i + k];
    }
  }

  lemma ParenParts(tokens: seq<string>, i: nat, inner: OrExpr)
    requires At(tokens, i, SpellPrimary(Paren(inner)))
    ensures var end := i + 1 + |SpellOr(inner)|;
            && end < |tokens| && tokens[i] == OPEN && tokens[end] == CLOSE
            && At(tokens, i + 1, SpellOr(inner)) && |SpellPrimary(Paren(inner))| == |SpellOr(inner)| + 2
  {
    hide SpellOr;
    assert [OPEN] + SpellOr(inner) + [CLOSE] == [] + [OPEN] + (SpellOr(inner) + [CLOSE]);
    AtParts(tokens, i, [], OPEN, SpellOr(inner) + [CLOSE]);
    assert SpellOr(inner) + [CLOSE] == SpellOr(inner) + [CLOSE] + [];
    AtParts(tokens, i + 1, SpellOr(inner), CLOSE, []);
  }

  /** The parser accepts exactly the spellings of the grammar, and reads each
      one back as the only expression so spelled. */
  lemma ParseIsGrammar(tokens: seq<string>, e: OrExpr)
    ensures Parse(tokens) == Some(e) <==> WellFormedOr(e) && SpellOr(e) == tokens
  {
    if Parse(tokens) == Some(e) {
      OrIsSpelled(tokens, 0);
      assert tokens[0..|tokens|] == tokens;
    }
    if WellFormedOr(e) && SpellOr(e) == tokens {
      assert tokens[0..|tokens|] == tokens;
      OrIsParsed(tokens, 0, e);
    }
  }

  /** The words between the parts, as written. */
  lemma SpellingIsLiteral(term: AndExpr, others: OrExpr, factor: Primary, more: AndExpr, id: string, exception: string)
    ensures SpellOr(OrMore(term, others)) == SpellAnd(term) + ["OR"] + SpellOr(others)
    ensures SpellOr(LastTerm(term)) == SpellAnd(term)
    ensures SpellAnd(AndMore(factor, more)) == SpellPrimary(factor) + ["AND"] + SpellAnd(more)
    ensures SpellAnd(LastFactor(factor)) == SpellPrimary(factor)
    ensures SpellPrimary(License(id)) == [id] && SpellPrimary(LicenseWith(id, exception)) == [id, "WITH", exception]
    ensures SpellPrimary(Paren(others)) == ["("] + SpellOr(others) + [")"]
  {
  }

  // ------------------------------------------------------ minimal parentheses

  /** A license formula as a tree. */
  datatype Formula = Leaf(leaf: Primary) | Both(left: Formula, right: Formula) | Either(left: Formula, right: Formula)

  predicate Plain(f: Formula) {
    match f
    case Leaf(p) => !p.Paren? && IsId(p.id)
    case Both(l, r) => Plain(l) && Plain(r)
    case Either(l, r) => Plain(l) && Plain(r)
  }

  function Meaning(f: Formula): Verdict {
    match f
    case Leaf(p) => VerdictPrimary(p)
    case Both(l, r) => Meaning(l).And(Meaning(r))
    case Either(l, r) => Meaning(l).Or(Meaning(r))
  }

  /** Print with parentheses only around an alternative inside a conjunction. */
  function Print(f: Formula): seq<string>
    decreases f, 1
  {
    if f.Either? then Print(f.left) + [OR] + Print(f.right) else PrintConjunct(f)
  }

  function PrintConjunct(f: Formula): seq<string>
    decreases f, 0
  {
    match f
    case Leaf(p) => SpellPrimary(p)
    case Both(l, r) => PrintConjunct(l) + [AND] + PrintConjunct(r)
    case Either(l, r) => [OPEN] + (Print(l) + [OR] + Print(r)) + [CLOSE]
  }

  function JoinOr(a: OrExpr, b: OrExpr): OrExpr {
    if a.LastTerm? then OrMore(a.term, b) else OrMore(a.term, JoinOr(a.rest, b))
  }

  function JoinAnd(a: AndExpr, b: AndExpr): AndExpr {
    if a.LastFactor? then AndMore(a.factor, b) else AndMore(a.factor, JoinAnd(a.rest, b))
  }

  function ReadOr(f: Formula): OrExpr
    decreases f, 1
  {
    if f.Either? then JoinOr(ReadOr(f.left), ReadOr(f.right)) else LastTerm(ReadAnd(f))
  }

  function ReadAnd(f: Formula): AndExpr
    decreases f, 0
  {
    match f
    case Leaf(p) => LastFactor(p)
    case Both(l, r) => JoinAnd(ReadAnd(l), ReadAnd(r))
    case Either(l, r) => LastFactor(Paren(JoinOr(ReadOr(l), ReadOr(r))))
  }

  lemma {:induction false} JoinOrFacts(a: OrExpr, b: OrExpr)
    ensures SpellOr(JoinOr(a, b)) == SpellOr(a) + [OR] + SpellOr(b)
    ensures VerdictOr(JoinOr(a, b)) == VerdictOr(a).Or(VerdictOr(b))
    ensures WellFormedOr(JoinOr(a, b)) <==> WellFormedOr(a) && WellFormedOr(b)
  {
    if a.OrMore? {
      JoinOrFacts(a.rest, b);
    }
  }

  lemma {:induction false} JoinAndFacts(a: AndExpr, b: AndExpr)
    ensures SpellAnd(JoinAnd(a, b)) == SpellAnd(a) + [AND] + SpellAnd(b)
    ensures VerdictAnd(JoinAnd(a, b)) == VerdictAnd(a).And(VerdictAnd(b))
    ensures WellFormedAnd(JoinAnd(a, b)) <==> WellFormedAnd(a) && WellFormedAnd(b)
  {
    if a.AndMore? {
      JoinAndFacts(a.rest, b);
    }
  }

  lemma {:induction false} ReadFacts(f: Formula)
    requires Plain(f)
    ensures WellFormedOr(ReadOr(f)) && SpellOr(ReadOr(f)) == Print(f) && VerdictOr(ReadOr(f)) == Meaning(f)
    ensures WellFormedAnd(ReadAnd(f)) && SpellAnd(ReadAnd(f)) == PrintConjunct(f)
    ensures VerdictAnd(ReadAnd(f)) == Meaning(f)
  {
    match f
    case Leaf(p) =>
      assert VerdictAnd(ReadAnd(f)) == VerdictPrimary(p);
    case Both(l, r) =>
      ReadFacts(l);
      ReadFacts(r);
      JoinAndFacts(ReadAnd(l), ReadAnd(r));
    case Either(l, r) =>
      ReadFacts(l);
      ReadFacts(r);
      JoinOrFacts(ReadOr(l), ReadOr(r));
      assert VerdictAnd(ReadAnd(f)) == VerdictPrimary(Paren(ReadOr(f)));
  }

  /** Precedence is right: the minimally parenthesized print of any formula
      parses, and its verdict is the formula's meaning. */
  lemma PrintParses(f: Formula)
    requires Plain(f)
    ensures Parse(Print(f)).Some? && VerdictOr(Parse(Print(f)).value) == Meaning(f)
  {
    ReadFacts(f);
    ParseIsGrammar(Print(f), ReadOr(f));
  }

  // ------------------------------------------------------- the parser object

  /** The verdict of what is parsed at `i`, and where it ends. */
  function OutcomeOr(tokens: seq<string>, i: nat): Option<(Verdict, nat)> {
    var r := ParseOr(tokens, i);
    if r.None? then None else Some((VerdictOr(r.value.0), r.value.1))
  }

  function OutcomeAnd(tokens: seq<string>, i: nat): Option<(Verdict, nat)> {
    var r := ParseAnd(tokens, i);
    if r.None? then None else Some((VerdictAnd(r.value.0), r.value.1))
  }

  function OutcomePrimary(tokens: seq<string>, i: nat): Option<(Verdict, nat)> {
    var r := ParsePrimary(tokens, i);
    if r.None? then None else Some((VerdictPrimary(r.value.0), r.value.1))
  }

  /** What a list loop still owes after reading `v` up to `i`. */
  function OrThen(tokens: seq<string>, v: Verdict, i: nat): Option<(Verdict, nat)> {
    if Peek(tokens, i) != Some(OR) then Some((v, i))
    else
      var more := OutcomeOr(tokens, i + 1);
      if more.None? then None else Some((v.Or(more.value.0), more.value.1))
  }

  function AndThen(tokens: seq<string>, v: Verdict, i: nat): Option<(Verdict, nat)> {
    if Peek(tokens, i) != Some(AND) then Some((v, i))
    else
      var more := OutcomeAnd(tokens, i + 1);
      if more.None? then None else Some((v.And(more.value.0), more.value.1))
  }

  lemma VerdictsAssociate(a: Verdict, b: Verdict, c: Verdict)
    ensures a.Or(b).Or(c) == a.Or(b.Or(c))
    ensures a.And(b).And(c) == a.And(b.And(c))
  {
  }

  /** Folding to the left agrees with the right-nested list. */
  lemma OrRegroups(tokens: seq<string>, v: Verdict, i: nat)
    requires Peek(tokens, i) == Some(OR)
    ensures var next := OutcomeAnd(tokens, i + 1);
            OrThen(tokens, v, i) ==
            if next.None? then None else OrThen(tokens, v.Or(next.value.0), next.value.1)
  {
    var next := OutcomeAnd(tokens, i + 1);
    if next.Some? && Peek(tokens, next.value.1) == Some(OR) {
      var more := OutcomeOr(tokens, next.value.1 + 1);
      if more.Some? {
        VerdictsAssociate(v, next.value.0, more.value.0);
      }
    }
  }

  lemma AndRegroups(tokens: seq<string>, v: Verdict, i: nat)
    requires Peek(tokens, i) == Some(AND)
    ensures var next := OutcomePrimary(tokens, i + 1);
            AndThen(tokens, v, i) ==
            if next.None? then None else AndThen(tokens, v.And(next.value.0), next.value.1)
  {
    var next := OutcomePrimary(tokens, i + 1);
    if next.Some? && Peek(tokens, next.value.1) == Some(AND) {
      var more := OutcomeAnd(tokens, next.value.1 + 1);
      if more.Some? {
        VerdictsAssociate(v, next.value.0, more.value.0);
      }
    }
  }

  class Parser {
    const tokens: seq<string>
    var index: nat

    constructor (tokens: seq<string>)
      ensures this.tokens == tokens && index == 0
    {
      this.tokens := tokens;
      index := 0;
    }

    /** The result agrees with what the tokens say at the starting index. */
    ghost predicate Agrees(expected: Option<(Verdict, nat)>, r: Result<Verdict>)
      reads this
    {
      if expected.None? then r.Err? else r == Ok(expected.value.0) && index == expected.value.1
    }

    /** Parse the whole token list; succeed exactly on the grammar. */
    method ParseAll() returns (r: Result<Verdict>)
      requires index == 0
      modifies this`index
      ensures r.Ok? <==> Parse(tokens).Some?
      ensures r.Ok? ==> r.value == VerdictOr(Parse(tokens).value)
      ensures r.Ok? ==>
        (r.value.satisfiable <==>
          exists choice :: choice in ChoicesOr(Parse(tokens).value) &&
            forall p :: p in choice ==>
              (p.License? && p.id in ALLOWED) || p == LicenseWith("Apache-2.0", "LLVM-exception"))
      ensures r.Ok? ==>
        r.value.unknown ==
          (set p | p in LeavesOr(Parse(tokens).value) && p.License? && p.id !in ALLOWED && p.id !in REVIEWED_DENIED
             :: p.id)
          + (set p | p in LeavesOr(Parse(tokens).value) && p.LicenseWith?
                     && p != LicenseWith("Apache-2.0", "LLVM-exception") :: p.id + " WITH " + p.exception)
    {
      r := ParseOrList();
      if r.Ok? && index != |tokens| {
        r := Err("unexpected token");
      }
      if r.Ok? {
        VerdictMeans(Parse(tokens).value);
      }
    }

    method ParseOrList() returns (r: Result<Verdict>)
      modifies this`index
      ensures Agrees(OutcomeOr(tokens, old(index)), r)
      decreases |tokens| - index, 5
    {
      r := ParseAndList();
      if r.Err? {
        return;
      }
      var verdict := r.value;
      while Peek(tokens, index) == Some(OR)
        invariant old(index) <= index
        invariant OutcomeOr(tokens, old(index)) == OrThen(tokens, verdict, index)
        decreases |tokens| - index
      {
        OrRegroups(tokens, verdict, index);
        index := index + 1;
        r := ParseAndList();
        if r.Err? {
          return;
        }
        verdict := verdict.Or(r.value);
      }
      r := Ok(verdict);
    }

    method ParseAndList() returns (r: Result<Verdict>)
      modifies this`index
      ensures Agrees(OutcomeAnd(tokens, old(index)), r)
      decreases |tokens| - index, 4
    {
      r := ParseOne();
      if r.Err? {
        return;
      }
      var verdict := r.value;
      while Peek(tokens, index) == Some(AND)
        invariant old(index) <= index
        invariant OutcomeAnd(tokens, old(index)) == AndThen(tokens, verdict, index)
        decreases |tokens| - index
      {
        AndRegroups(tokens, verdict, index);
        index := index + 1;
        r := ParseOne();
        if r.Err? {
          return;
        }
        verdict := verdict.And(r.value);
      }
      r := Ok(verdict);
    }

    method ParseOne() returns (r: Result<Verdict>)
      modifies this`index
      ensures Agrees(OutcomePrimary(tokens, old(index)), r)
      decreases |tokens| - index, 3
    {
      var token := Peek(tokens, index);
      if token == Some(OPEN) {
        index := index + 1;
        r := ParseOrList();
        if r.Ok? {
          if Peek(tokens, index) != Some(CLOSE) {
            return Err("expected closing parenthesis");
          }
          index := index + 1;
        }
        return;
      }
      if token.None? || !IsId(token.value) {
        return Err("expected license id");
      }
      index := index + 1;
      if Peek(tokens, index) == Some(WITH) {
        index := index + 1;
        var exception := Peek(tokens, index);
        if exception.None? {
          return Err("missing SPDX exception after WITH");
        }
        index := index + 1;
        return Ok(ExceptionVerdict(token.value, exception.value));
      }
      return Ok(LicenseVerdict(token.value));
    }
  }
}
