/** Names and slash-separated paths. */
module Paths {
  import opened Wrappers

  datatype FsError = InvalidPath | NotFound | NotADirectory | NotAFile | AlreadyExists | NotEmpty | InvalidMove

  /** Whether `name` can stand as one component of a path. */
  predicate ValidName(name: string) {
    name != "" && name != "." && name != ".." && '/' !in name && '\0' !in name
  }

  predicate AllValid(cs: seq<string>) {
    forall c | c in cs :: ValidName(c)
  }

  /** The pieces between slashes. */
  function Split(path: string): (parts: seq<string>)
    ensures parts != []
  {
    if path == [] then [[]]
    else
      var rest := Split(path[1..]);
      if path[0] == '/' then [[]] + rest else [[path[0]] + rest[0]] + rest[1..]
  }

  function DropEmpty(parts: seq<string>): seq<string> {
    if parts == [] then []
    else if parts[0] == [] then DropEmpty(parts[1..])
    else [parts[0]] + DropEmpty(parts[1..])
  }

  /** The validated components of a path; empty ones collapse. */
  function Components(path: string): Result<seq<string>, FsError> {
    var comps := DropEmpty(Split(path));
    if AllValid(comps) then Ok(comps) else Err(InvalidPath)
  }

  function Join(cs: seq<string>): string {
    if cs == [] then []
    else if |cs| == 1 then cs[0]
    else cs[0] + "/" + Join(cs[1..])
  }

  lemma {:induction false} SplitPiece(piece: string, rest: string)
    requires '/' !in piece
    ensures Split(piece) == [piece]
    ensures Split(piece + "/" + rest) == [piece] + Split(rest)
  {
    if piece == [] {
      assert piece + "/" + rest == ['/'] + rest;
      assert (['/'] + rest)[1..] == rest;
    } else {
      var whole := piece + "/" + rest;
      assert whole[1..] == piece[1..] + "/" + rest;
      assert piece == [piece[0]] + piece[1..];
      SplitPiece(piece[1..], rest);
      assert Split(whole)[1..] == Split(rest);
    }
  }

  /** Splitting a joined path gives its components back. */
  lemma {:induction false} JoinThenComponents(cs: seq<string>)
    requires AllValid(cs)
    ensures Components(Join(cs)) == Ok(cs)
  {
    JoinThenSplit(cs);
    assert AllValid(cs);
  }

  lemma {:induction false} JoinThenSplit(cs: seq<string>)
    requires AllValid(cs)
    ensures DropEmpty(Split(Join(cs))) == cs
  {
    if |cs| == 1 {
      assert ValidName(cs[0]);
      SplitPiece(cs[0], "");
      assert DropEmpty([cs[0]]) == [cs[0]] + DropEmpty([]);
      assert cs == [cs[0]];
    } else if |cs| > 1 {
      assert ValidName(cs[0]);
      SplitPiece(cs[0], Join(cs[1..]));
      JoinThenSplit(cs[1..]);
      assert ([cs[0]] + Split(Join(cs[1..])))[1..] == Split(Join(cs[1..]));
      assert cs == [cs[0]] + cs[1..];
    }
  }

  /** Appending `/name` to a path joins one more component. */
  lemma {:induction false} JoinAppend(cs: seq<string>, name: string)
    requires cs != []
    ensures Join(cs + [name]) == Join(cs) + "/" + name
    decreases |cs|
  {
    assert (cs + [name])[1..] == cs[1..] + [name];
    if |cs| > 1 {
      JoinAppend(cs[1..], name);
      assert cs[0] + "/" + (Join(cs[1..]) + "/" + name) == cs[0] + "/" + Join(cs[1..]) + "/" + name;
    } else {
      assert cs[1..] + [name] == [name];
    }
  }

  lemma {:induction false} DropEmptyConcat(a: seq<string>, b: seq<string>)
    ensures DropEmpty(a + b) == DropEmpty(a) + DropEmpty(b)
  {
    if a == [] {
      assert a + b == b;
    } else {
      assert (a + b)[1..] == a[1..] + b;
      DropEmptyConcat(a[1..], b);
    }
  }

  /** The pieces with `c` in front: a new empty piece if it is a slash, else one more character in the first. */
  function InFront(c: char, parts: seq<string>): seq<string>
    requires parts != []
  {
    if c == '/' then [[]] + parts else [[c] + parts[0]] + parts[1..]
  }

  lemma SplitStep(c: char, s: string)
    ensures Split([c] + s) == InFront(c, Split(s))
  {
    assert ([c] + s)[1..] == s;
  }

  lemma InFrontConcat(c: char, parts: seq<string>, more: seq<string>)
    requires parts != []
    ensures InFront(c, parts + more) == InFront(c, parts) + more
  {
    assert (parts + more)[0] == parts[0] && (parts + more)[1..] == parts[1..] + more;
  }

  lemma {:induction false} SplitConcat(a: string, b: string)
    ensures Split(a + "/" + b) == Split(a) + Split(b)
    decreases |a|
  {
    if a == [] {
      assert a + "/" + b == ['/'] + b;
      SplitStep('/', b);
    } else {
      SplitConcat(a[1..], b);
      assert a == [a[0]] + a[1..] && a + "/" + b == [a[0]] + (a[1..] + "/" + b);
      SplitStep(a[0], a[1..]);
      SplitStep(a[0], a[1..] + "/" + b);
      InFrontConcat(a[0], Split(a[1..]), Split(b));
    }
  }

  /** What two results of splitting come to together. */
  function Both(a: Result<seq<string>, FsError>, b: Result<seq<string>, FsError>): Result<seq<string>, FsError> {
    if a.Ok? && b.Ok? then Ok(a.value + b.value) else Err(InvalidPath)
  }

  /** A slash only separates: what is before and after it is split on its own. */
  lemma {:induction false} SlashSeparates(a: string, b: string)
    ensures Components(a + "/" + b) == Both(Components(a), Components(b))
  {
    SplitConcat(a, b);
    DropEmptyConcat(Split(a), Split(b));
    var x, y := DropEmpty(Split(a)), DropEmpty(Split(b));
    assert AllValid(x + y) <==> AllValid(x) && AllValid(y) by {
      assert forall c :: c in x + y <==> c in x || c in y;
    }
  }

  /** Leading, trailing and doubled slashes do not matter. */
  lemma SlashesCollapse(a: string, b: string)
    ensures Components("/" + a) == Components(a) && Components(a + "/") == Components(a)
    ensures Components(a + "//" + b) == Components(a + "/" + b)
  {
    SlashSeparates("", a);
    SlashSeparates(a, "");
    SlashSeparates(a, "/" + b);
    SlashSeparates("", b);
    SlashSeparates(a, b);
    assert "" + "/" + a == "/" + a && a + "/" + "" == a + "/" && "" + "/" + b == "/" + b;
    assert a + "/" + ("/" + b) == a + "//" + b;
    assert DropEmpty(Split("")) == [];
    assert Components(a).Ok? ==> [] + Components(a).value == Components(a).value == Components(a).value + [];
    assert Components(b).Ok? ==> [] + Components(b).value == Components(b).value;
  }

  /** A piece without a slash is one component, if it is not empty, and a bad one makes the path invalid. */
  lemma OnePiece(piece: string)
    requires '/' !in piece
    ensures Components(piece) ==
      if piece == "" then Ok([]) else if ValidName(piece) then Ok([piece]) else Err(InvalidPath)
  {
    SplitPiece(piece, "");
    assert DropEmpty([piece]) == if piece == [] then [] else [piece] + DropEmpty([]);
    if piece != "" {
      assert piece in [piece];
    }
  }
}
