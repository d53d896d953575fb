/** `autoComplete`: prefix completion of the command line over a fixed list of names. */
module Completion {
  import opened Text
  import opened Display

  /** The names Tab completes to, in the order they are offered. `ls`, `pwd`, `exit` and
      `quit` are commands too, but are not in this list. */
  const CommandNames: seq<string> :=
    ["help", "about", "projects", "social", "clear", "whoami", "date", "history", "banner", "theme"]

  /** `names.filter(n => n.startsWith(prefix))`: the names starting with `prefix`, in
      list order. */
  function Candidates(prefix: string, names: seq<string>): (r: seq<string>)
    ensures |r| <= |names|
  {
    if names == [] then []
    else (if StartsWith(names[0], prefix) then [names[0]] else []) + Candidates(prefix, names[1..])
  }

  /** The filter keeps exactly the names that start with the prefix. */
  lemma {:induction false} CandidatesExact(prefix: string, names: seq<string>)
    ensures forall x :: x in Candidates(prefix, names) <==> x in names && StartsWith(x, prefix)
  {
    if names != [] {
      CandidatesExact(prefix, names[1..]);
      assert names == [names[0]] + names[1..];
    }
  }

  /** The completions offered for what is typed: matching is on the lower-cased input. */
  function Matches(input: string): seq<string> {
    Candidates(Lower(input), CommandNames)
  }

  /** The command line after Tab, and the blocks Tab appends to the scrollback. */
  datatype Completed = Completed(input: string, lines: seq<Line>)

  /** One match replaces the input with that name; several leave the input alone and list
      them, comma-separated and in table order; none does nothing. */
  function AutoComplete(input: string): (r: Completed)
    ensures r.input != input ==>
      && r.input in CommandNames
      && StartsWith(r.input, Lower(input))
      && (forall n :: n in CommandNames && StartsWith(n, Lower(input)) ==> n == r.input)
    ensures r.lines != [] ==>
      && r.input == input
      && r.lines == [Line("Available commands: " + Join(Matches(input), ", "), Info)]
      && |Matches(input)| >= 2
    ensures Matches(input) == [] ==> r == Completed(input, [])
    ensures |Matches(input)| == 1 ==> r == Completed(Matches(input)[0], [])
    ensures |Matches(input)| >= 2 ==>
      r == Completed(input, [Line("Available commands: " + Join(Matches(input), ", "), Info)])
  {
    var matches := Matches(input);
    CandidatesExact(Lower(input), CommandNames);
    if |matches| == 1 then
      assert matches == [matches[0]];
      assert matches[0] in matches;
      Completed(matches[0], [])
    else if |matches| > 1 then
      Completed(input, [Line("Available commands: " + Join(matches, ", "), Info)])
    else
      Completed(input, [])
  }

  /** No name is listed twice. */
  lemma NamesDistinct()
    ensures forall i, j :: 0 <= i < j < |CommandNames| ==> CommandNames[i] != CommandNames[j]
  {
  }

  /** `n` is the one name that starts with `v`. */
  predicate OnlyMatch(n: string, v: string) {
    && n in CommandNames && StartsWith(n, v)
    && forall m :: m in CommandNames && StartsWith(m, v) ==> m == n
  }

  /** When exactly one name starts with the lower-cased input, Tab replaces the input with
      that name and prints nothing. */
  lemma UniqueMatchCompletes(input: string)
    ensures forall n :: OnlyMatch(n, Lower(input)) ==> AutoComplete(input) == Completed(n, [])
  {
    forall n | OnlyMatch(n, Lower(input)) ensures AutoComplete(input) == Completed(n, []) {
      OnlyMatchIsMatches(Lower(input), n);
    }
  }

  /** The filter of an only match holds just that name. */
  lemma OnlyMatchIsMatches(v: string, n: string)
    requires OnlyMatch(n, v)
    ensures Candidates(v, CommandNames) == [n]
  {
    NamesDistinct();
    forall i, j | 0 <= i < j < |CommandNames|
      ensures !(StartsWith(CommandNames[i], v) && StartsWith(CommandNames[j], v))
    {
      assert CommandNames[i] in CommandNames && CommandNames[j] in CommandNames;
    }
    AtMostOneCandidate(v, CommandNames);
    CandidatesExact(v, CommandNames);
    assert n in Candidates(v, CommandNames);
  }

  /** If two names both start with `v`, they agree on the first `|v|` characters. */
  lemma CommonPrefix(a: string, b: string, v: string, k: nat)
    requires StartsWith(a, v) && StartsWith(b, v) && k < |v|
    ensures a[k] == b[k]
  {
    assert a[k] == a[..|v|][k];
    assert b[k] == b[..|v|][k];
  }

  /** A filter over names no two of which match yields at most one name. */
  lemma {:induction false} AtMostOneCandidate(v: string, names: seq<string>)
    requires forall i, j :: 0 <= i < j < |names| ==> !(StartsWith(names[i], v) && StartsWith(names[j], v))
    ensures |Candidates(v, names)| <= 1
  {
    if names != [] {
      AtMostOneCandidate(v, names[1..]);
      if StartsWith(names[0], v) {
        assert forall j :: 0 <= j < |names| - 1 ==> !StartsWith(names[1..][j], v) by {
          forall j | 0 <= j < |names| - 1 ensures !StartsWith(names[1..][j], v) {
            assert names[1..][j] == names[j + 1];
          }
        }
        NoCandidate(v, names[1..]);
      }
    }
  }

  lemma {:induction false} CandidatesAppend(v: string, a: seq<string>, b: seq<string>)
    ensures Candidates(v, a + b) == Candidates(v, a) + Candidates(v, b)
  {
    if a == [] {
      assert a + b == b;
    } else {
      assert (a + b)[0] == a[0];
      assert (a + b)[1..] == a[1..] + b;
      CandidatesAppend(v, a[1..], b);
      var head := if StartsWith(a[0], v) then [a[0]] else [];
      calc {
        Candidates(v, a + b);
        head + Candidates(v, a[1..] + b);
        head + (Candidates(v, a[1..]) + Candidates(v, b));
        (head + Candidates(v, a[1..])) + Candidates(v, b);
        Candidates(v, a) + Candidates(v, b);
      }
    }
  }

  lemma {:induction false} AllCandidates(v: string, names: seq<string>)
    requires forall j :: 0 <= j < |names| ==> StartsWith(names[j], v)
    ensures Candidates(v, names) == names
  {
    if names != [] {
      AllCandidates(v, names[1..]);
    }
  }

  lemma {:induction false} NoCandidate(v: string, names: seq<string>)
    requires forall j :: 0 <= j < |names| ==> !StartsWith(names[j], v)
    ensures Candidates(v, names) == []
  {
    if names != [] {
      NoCandidate(v, names[1..]);
    }
  }

  /** Tab lists several commands exactly when the lower-cased input is empty or `h`; every
      other input has at most one completion. */
  lemma ListsExactlyOnEmptyOrH(input: string)
    ensures AutoComplete(input).lines != [] <==> Lower(input) == "" || Lower(input) == "h"
  {
    SeveralExactlyOnEmptyOrH(Lower(input));
  }

  /** Several names start with `v` exactly when `v` is empty or `h`. */
  lemma SeveralExactlyOnEmptyOrH(v: string)
    ensures |Candidates(v, CommandNames)| >= 2 <==> v == "" || v == "h"
  {
    if v == "" {
      AllCandidates(v, CommandNames);
    } else if v == "h" {
      MatchesH();
    } else {
      forall i, j | 0 <= i < j < |CommandNames|
        ensures !(StartsWith(CommandNames[i], v) && StartsWith(CommandNames[j], v))
      {
        if StartsWith(CommandNames[i], v) && StartsWith(CommandNames[j], v) {
          CommonPrefix(CommandNames[i], CommandNames[j], v, 0);
          if |v| >= 2 {
            CommonPrefix(CommandNames[i], CommandNames[j], v, 1);
          }
        }
      }
      AtMostOneCandidate(v, CommandNames);
    }
  }

  /** Tab on an empty line lists all ten names in table order. */
  lemma EmptyListsAll()
    ensures Matches("") == CommandNames
    ensures AutoComplete("").lines == [Line("Available commands: " + Join(CommandNames, ", "), Info)]
  {
    LowerOfLowerCase("");
    AllCandidates("", CommandNames);
  }

  /** A name whose first character differs from that of `v` does not start with `v`. */
  lemma CharDiffers(n: string, v: string, k: nat)
    requires k < |v| && k < |n| && n[k] != v[k]
    ensures !StartsWith(n, v)
  {
    if StartsWith(n, v) {
      CommonPrefix(n, v, v, k);
    }
  }

  lemma {:induction false} SingleCandidate(v: string, n: string)
    ensures Candidates(v, [n]) == if StartsWith(n, v) then [n] else []
  {
    assert [n][1..] == [];
  }

  /** No name between `help` and `history`, nor after `history`, starts with `h`. */
  lemma OnlyTwoH()
    ensures Candidates("h", CommandNames[1..7]) == []
    ensures Candidates("h", CommandNames[8..]) == []
  {
    var v, mid, tail := "h", CommandNames[1..7], CommandNames[8..];
    forall j | 0 <= j < |mid| ensures !StartsWith(mid[j], v) {
      CharDiffers(mid[j], v, 0);
    }
    forall j | 0 <= j < |tail| ensures !StartsWith(tail[j], v) {
      CharDiffers(tail[j], v, 0);
    }
    NoCandidate(v, mid);
    NoCandidate(v, tail);
  }

  /** `h` matches `help` and `history`, in table order. */
  lemma MatchesH()
    ensures Candidates("h", CommandNames) == ["help", "history"]
  {
    var v, names := "h", CommandNames;
    OnlyTwoH();
    assert names[1..] == names[1..7] + names[7..];
    CandidatesAppend(v, names[1..7], names[7..]);
    assert names[7..][1..] == names[8..];
    assert Candidates(v, names[7..]) == [names[7]] + Candidates(v, names[8..]);
    assert Candidates(v, names) == [names[0]] + Candidates(v, names[1..]);
  }

  /** Tab never completes to `ls`, `pwd`, `exit` or `quit`: those are left as typed. */
  lemma NeverCompletesHidden(input: string)
    ensures AutoComplete(input).input in {"ls", "pwd", "exit", "quit"} ==> AutoComplete(input).input == input
  {
  }

  /** Tab after `he` gives `help`. */
  lemma CompletesHe()
    ensures AutoComplete("he") == Completed("help", [])
  {
    var v := Lower("he");
    LowerOfLowerCase("he");
    var rest := CommandNames[1..];
    assert CommandNames == [CommandNames[0]] + rest;
    assert StartsWith(CommandNames[0], v);
    forall j | 0 <= j < |rest| ensures !StartsWith(rest[j], v) {
      CharDiffers(rest[j], v, if j == 6 then 1 else 0);
    }
    CandidatesAppend(v, [CommandNames[0]], rest);
    NoCandidate(v, rest);
  }
}
