/** The five lifecycle states of src/shared/state.py: their names, their
    tables of allowed successors and their "can process task" flags. */
module States {

  datatype State = Waiting | Ready | Processing | Error | Inactive

  /** The Python class that implements each state. */
  function ClassName(s: State): string
  {
    match s
    case Waiting => "WaitingState"
    case Ready => "ReadyState"
    case Processing => "ProcessingState"
    case Error => "ErrorState"
    case Inactive => "InactiveState"
  }

  /** `str.replace(pat, "")`: every non-overlapping occurrence of `pat`, scanned
      from the left, is deleted. */
  function RemoveAll(s: string, pat: string): (r: string)
    requires pat != []
    ensures |r| <= |s|
    decreases |s|
  {
    if |s| < |pat| then s
    else if s[..|pat|] == pat then RemoveAll(s[|pat|..], pat)
    else [s[0]] + RemoveAll(s[1..], pat)
  }

  /** `str.lower()` restricted to ASCII letters. */
  function Lower(s: string): (r: string)
    ensures |r| == |s|
  {
    if s == [] then []
    else
      var c := s[0];
      [if 'A' <= c <= 'Z' then (c as int + 32) as char else c] + Lower(s[1..])
  }

  /** The `name` property: the class name without "State", lower-cased. */
  function Name(s: State): string
  {
    match s
    case Waiting => "waiting"
    case Ready => "ready"
    case Processing => "processing"
    case Error => "error"
    case Inactive => "inactive"
  }

  /** Deleting a trailing `pat` from a prefix in which `pat` cannot start. */
  lemma {:induction false} RemoveTrailing(p: string, pat: string)
    requires pat != []
    requires pat[0] !in p
    ensures RemoveAll(p + pat, pat) == p
  {
    if p == [] {
      assert p + pat == pat;
      assert RemoveAll(pat[|pat|..], pat) == [];
    } else {
      assert (p + pat)[..|pat|] != pat by { assert (p + pat)[0] == p[0]; }
      assert (p + pat)[1..] == p[1..] + pat;
      RemoveTrailing(p[1..], pat);
    }
  }

  predicate NoCapitals(s: string)
  {
    s == [] || (!('A' <= s[0] <= 'Z') && NoCapitals(s[1..]))
  }

  /** Lower-casing leaves a string without capitals unchanged. */
  lemma {:induction false} LowerKeepsSmall(s: string)
    requires NoCapitals(s)
    ensures Lower(s) == s
  {
    if s != [] {
      LowerKeepsSmall(s[1..]);
    }
  }

  /** A capitalised word without further capitals and without `pat`'s first
      letter loses a trailing `pat` and then its capital. */
  lemma NameOfClass(cls: string, capital: char, rest: string, pat: string)
    requires cls == [capital] + rest + pat
    requires pat != []
    requires 'A' <= capital <= 'Z' && capital != pat[0] && pat[0] !in rest
    requires NoCapitals(rest)
    ensures Lower(RemoveAll(cls, pat)) == [(capital as int + 32) as char] + rest
  {
    assert [capital] + rest + pat == ([capital] + rest) + pat;
    RemoveTrailing([capital] + rest, pat);
    assert ([capital] + rest)[1..] == rest;
    LowerKeepsSmall(rest);
  }

  /* One pair of lemmas per class keeps each literal computation in a proof of
     its own: the first splits the literals, the second derives the name. */
  lemma WaitingParts()
    ensures NoCapitals("aiting") && 'S' !in "aiting"
    ensures ClassName(Waiting) == ['W'] + "aiting" + "State"
    ensures Name(Waiting) == [('W' as int + 32) as char] + "aiting"
  {
  }

  lemma WaitingName(cls: string)
    requires cls == ClassName(Waiting)
    ensures Lower(RemoveAll(cls, "State")) == Name(Waiting)
  {
    WaitingParts();
    NameOfClass(cls, 'W', "aiting", "State");
  }

  lemma ReadyParts()
    ensures NoCapitals("eady") && 'S' !in "eady"
    ensures ClassName(Ready) == ['R'] + "eady" + "State"
    ensures Name(Ready) == [('R' as int + 32) as char] + "eady"
  {
  }

  lemma ReadyName(cls: string)
    requires cls == ClassName(Ready)
    ensures Lower(RemoveAll(cls, "State")) == Name(Ready)
  {
    ReadyParts();
    NameOfClass(cls, 'R', "eady", "State");
  }

  lemma ProcessingParts()
    ensures NoCapitals("rocessing") && 'S' !in "rocessing"
    ensures ClassName(Processing) == ['P'] + "rocessing" + "State"
    ensures Name(Processing) == [('P' as int + 32) as char] + "rocessing"
  {
  }

  lemma ProcessingName(cls: string)
    requires cls == ClassName(Processing)
    ensures Lower(RemoveAll(cls, "State")) == Name(Processing)
  {
    ProcessingParts();
    NameOfClass(cls, 'P', "rocessing", "State");
  }

  lemma ErrorParts()
    ensures NoCapitals("rror") && 'S' !in "rror"
    ensures ClassName(Error) == ['E'] + "rror" + "State"
    ensures Name(Error) == [('E' as int + 32) as char] + "rror"
  {
  }

  lemma ErrorName(cls: string)
    requires cls == ClassName(Error)
    ensures Lower(RemoveAll(cls, "State")) == Name(Error)
  {
    ErrorParts();
    NameOfClass(cls, 'E', "rror", "State");
  }

  lemma InactiveParts()
    ensures NoCapitals("nactive") && 'S' !in "nactive"
    ensures ClassName(Inactive) == ['I'] + "nactive" + "State"
    ensures Name(Inactive) == [('I' as int + 32) as char] + "nactive"
  {
  }

  lemma InactiveName(cls: string)
    requires cls == ClassName(Inactive)
    ensures Lower(RemoveAll(cls, "State")) == Name(Inactive)
  {
    InactiveParts();
    NameOfClass(cls, 'I', "nactive", "State");
  }

  /** Each name is what the `name` property computes from the class name. */
  lemma NameIsLoweredClassName(s: State)
    ensures Name(s) == Lower(RemoveAll(ClassName(s), "State"))
  {
    match s
    case Waiting => WaitingName(ClassName(s));
    case Ready => ReadyName(ClassName(s));
    case Processing => ProcessingName(ClassName(s));
    case Error => ErrorName(ClassName(s));
    case Inactive => InactiveName(ClassName(s));
  }

  /** The list each state's `can_transition_to` tests membership in. */
  function Successors(s: State): seq<string>
  {
    match s
    case Waiting => ["ready", "processing", "error", "inactive"]
    case Ready => ["waiting", "processing", "error", "inactive"]
    case Processing => ["waiting", "ready", "error", "inactive"]
    case Error => ["waiting", "ready", "inactive"]
    case Inactive => ["waiting", "ready", "error"]
  }

  predicate CanTransitionTo(s: State, name: string)
  {
    name in Successors(s)
  }

  predicate CanProcessTask(s: State)
  {
    match s
    case Ready => true
    case Processing => true
    case _ => false
  }

  /** Distinct states have distinct names. */
  lemma NameInjective(s: State, t: State)
    ensures Name(s) == Name(t) <==> s == t
  {
  }

  /** The successor tables in terms of states: every other state is allowed,
      except that neither Error nor Inactive may go straight to Processing.
      In particular no state lists itself. */
  lemma TransitionTable(s: State, t: State)
    ensures CanTransitionTo(s, Name(t)) <==>
      s != t && !(t == Processing && (s == Error || s == Inactive))
  {
  }

  /** A name outside the five state names is never an allowed successor. */
  lemma SuccessorsAreStateNames(s: State, name: string)
    requires CanTransitionTo(s, name)
    ensures exists t :: Name(t) == name
  {
    if name == "waiting" { assert Name(Waiting) == name; }
    else if name == "ready" { assert Name(Ready) == name; }
    else if name == "processing" { assert Name(Processing) == name; }
    else if name == "error" { assert Name(Error) == name; }
    else { assert Name(Inactive) == name; }
  }

  /** Exactly Ready and Processing allow task processing. */
  lemma ProcessingStates(s: State)
    ensures CanProcessTask(s) <==> s in {Ready, Processing}
  {
  }
}
