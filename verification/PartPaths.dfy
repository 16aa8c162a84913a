/**
 * MIME part identifiers: written by the parser as it walks a message, read back by
 * the IMAP client when the part is fetched (section 6.4.5 of RFC 3501).
 */
module PartPaths {
  import opened Common

  const MAX_DEPTH := 64
  const MAX_INT := 0x7FFF_FFFF_FFFF_FFFF

  /** The entities `walk` tells apart.  `parts` are those read before the end of the
      multipart or the first malformed boundary; a body that has to be read, of an
      attachment or a text, may turn out unreadable. */
  datatype Entity = Attached(readable: bool) | Multipart(parts: seq<Entity>) | Other(readable: bool)

  type Path = seq<nat>

  function Digit(d: nat): char
    requires d < 10
  {
    ['0', '1', '2', '3', '4', '5', '6', '7', '8', '9'][d]
  }

  function Decimal(n: nat): (s: string)
    ensures s != "" && forall i :: 0 <= i < |s| ==> '0' <= s[i] <= '9'
  {
    if n < 10 then [Digit(n)] else Decimal(n / 10) + [Digit(n % 10)]
  }

  /** The digits still to come: none when nothing is left. */
  function Pending(k: nat): string
  {
    if k == 0 then "" else Decimal(k)
  }

  lemma PendingStep(k: nat, b: string)
    requires k > 0
    ensures Pending(k) + b == Pending(k / 10) + ([Digit(k % 10)] + b)
  {
    if k >= 10 {
      assert Pending(k) == Pending(k / 10) + [Digit(k % 10)];
    } else {
      assert Pending(k) == [Digit(k % 10)] && Pending(k / 10) == "";
    }
  }

  method Itoa(n: nat) returns (s: string)
    ensures s == Decimal(n)
  {
    if n < 10 {
      return [Digit(n)];
    }
    s := "";
    var k := n;
    while k > 0
      invariant Pending(k) + s == Decimal(n)
    {
      PendingStep(k, s);
      s := [Digit(k % 10)] + s;
      k := k / 10;
    }
  }

  /** Value of a digit string; None when some character is no digit. */
  function Digits(s: string): Option<int>
  {
    if s == "" then Some(0)
    else
      var c := s[|s| - 1];
      var front := Digits(s[..|s| - 1]);
      if front.Some? && '0' <= c <= '9' then Some(10 * front.value + (c - '0') as int) else None
  }

  /** strconv.Atoi on a 64-bit int. */
  function Atoi(s: string): Option<int>
  {
    var negative := s != "" && s[0] == '-';
    var body := if s != "" && (s[0] == '-' || s[0] == '+') then s[1..] else s;
    var v := Digits(body);
    if body == "" || v.None? then None
    else if negative then (if v.value <= MAX_INT + 1 then Some(-v.value) else None)
    else if v.value <= MAX_INT then Some(v.value) else None
  }

  lemma {:induction false} DigitsDecimal(n: nat)
    ensures Digits(Decimal(n)) == Some(n)
  {
    if n < 10 {
      assert Decimal(n)[..0] == "";
    } else {
      DigitsDecimal(n / 10);
      assert Decimal(n)[..|Decimal(n)| - 1] == Decimal(n / 10);
    }
  }

  /** Digit strings are read in base ten. */
  lemma DigitsSnoc(s: string, c: char)
    ensures Digits("") == Some(0)
    ensures Digits(s + [c])
         == if Digits(s).Some? && '0' <= c <= '9' then Some(10 * Digits(s).value + (c - '0') as int) else None
  {
    assert (s + [c])[..|s|] == s;
  }

  /** The numeral of n is the digit string of that value without leading zeros. */
  lemma {:induction false} DecimalIs(n: nat)
    ensures Digits(Decimal(n)) == Some(n)
    ensures if n == 0 then Decimal(n) == "0" else Decimal(n)[0] != '0'
  {
    DigitsDecimal(n);
    if n >= 10 {
      DecimalIs(n / 10);
    }
  }

  lemma {:induction false} DigitsOnly(s: string)
    requires Digits(s).Some?
    ensures Digits(s).value >= 0 && forall i :: 0 <= i < |s| ==> '0' <= s[i] <= '9'
  {
    if s != "" {
      DigitsOnly(s[..|s| - 1]);
    }
  }

  /** Atoi takes digits with at most one sign in front and rejects what a 64-bit int cannot
      hold. */
  lemma AtoiUnsigned(body: string)
    ensures body != "" && Digits(body).Some? ==>
      Atoi(body) == if Digits(body).value <= 0x7FFF_FFFF_FFFF_FFFF then Some(Digits(body).value) else None
    ensures body == "" || (Digits(body).None? && body[0] != '+' && body[0] != '-') ==> Atoi(body) == None
  {
    if Digits(body).Some? {
      DigitsOnly(body);
    }
  }

  lemma AtoiSigned(body: string)
    ensures Atoi("+" + body)
         == if body != "" && Digits(body).Some? && Digits(body).value <= 0x7FFF_FFFF_FFFF_FFFF
            then Some(Digits(body).value) else None
    ensures Atoi("-" + body)
         == if body != "" && Digits(body).Some? && Digits(body).value <= 0x8000_0000_0000_0000
            then Some(-Digits(body).value) else None
  {
    assert ("+" + body)[1..] == body && ("-" + body)[1..] == body;
  }

  /** itoa and Atoi are inverse on every int. */
  lemma AtoiItoa(n: nat)
    requires n <= MAX_INT
    ensures Atoi(Decimal(n)) == Some(n)
  {
    DigitsDecimal(n);
  }

  /** strings.Split(s, "."). */
  function Split(s: string): (parts: seq<string>)
    ensures parts != []
  {
    if s == "" then [""]
    else
      var front, c := Split(s[..|s| - 1]), s[|s| - 1];
      if c == '.' then front + [""]
      else front[|front| - 1 := front[|front| - 1] + [c]]
  }

  lemma {:induction false} SplitWord(word: string)
    requires '.' !in word
    ensures Split(word) == [word]
  {
    if word != "" {
      SplitWord(word[..|word| - 1]);
      assert word == word[..|word| - 1] + [word[|word| - 1]];
    }
  }

  lemma {:induction false} SplitLast(s: string, word: string)
    requires '.' !in word
    ensures Split(s + "." + word) == Split(s) + [word]
    decreases |word|
  {
    var whole := s + "." + word;
    if word == "" {
      assert whole[..|whole| - 1] == s;
    } else {
      var front := word[..|word| - 1];
      SplitLast(s, front);
      assert whole[..|whole| - 1] == s + "." + front;
      assert word == front + [word[|word| - 1]];
    }
  }

  /** The part identifier of a path, as walk builds it. */
  function PartID(path: Path): string
  {
    if path == [] then "" else Child(PartID(path[..|path| - 1]), path[|path| - 1])
  }

  function Child(partID: string, i: nat): (id: string)
    ensures id != ""
  {
    (if partID != "" then partID + "." else "") + Decimal(i)
  }

  function Numbers(parts: seq<string>): seq<int>
  {
    if parts == [] then []
    else
      var n := Atoi(parts[|parts| - 1]);
      Numbers(parts[..|parts| - 1]) + (if n.Some? then [n.value] else [])
  }

  function PartPath(s: string): seq<int>
  {
    if s == "" then [] else Numbers(Split(s))
  }

  method ParsePartPath(s: string) returns (path: seq<int>)
    ensures path == PartPath(s)
  {
    if s == "" {
      return [];
    }
    var parts := Split(s);
    path := [];
    for i := 0 to |parts|
      invariant path == Numbers(parts[..i])
    {
      assert parts[..i + 1][..i] == parts[..i];
      var n := Atoi(parts[i]);
      if n.Some? {
        path := path + [n.value];
      }
    }
    assert parts[..|parts|] == parts;
  }

  /** Reading a child's identifier extends the path of its parent. */
  lemma ReadChild(partID: string, i: nat)
    requires i <= MAX_INT
    ensures PartPath(Child(partID, i)) == PartPath(partID) + [i]
  {
    AtoiItoa(i);
    ReadWord(partID, Decimal(i), i);
  }

  lemma ReadWord(partID: string, word: string, n: int)
    requires '.' !in word && word != "" && Atoi(word) == Some(n)
    ensures PartPath((if partID != "" then partID + "." else "") + word) == PartPath(partID) + [n]
  {
    if partID == "" {
      assert "" + word == word;
      SplitWord(word);
      assert [] + [word] == [word];
      NumbersLast([], word, n);
    } else {
      SplitLast(partID, word);
      NumbersLast(Split(partID), word, n);
    }
  }

  /** Reading goes word by word between the dots and skips what is no number. */
  lemma PartPathWord(s: string, word: string)
    requires '.' !in word
    ensures PartPath("") == []
    ensures PartPath(word) == if Atoi(word).Some? then [Atoi(word).value] else []
    ensures PartPath(s + "." + word) == PartPath(s) + (if Atoi(word).Some? then [Atoi(word).value] else [])
  {
    SplitWord(word);
    SplitLast(s, word);
    assert [word][..0] == [];
    assert (Split(s) + [word])[..|Split(s)|] == Split(s);
    assert Atoi("") == None && Split("") == [""];
    assert [""][..0] == [];
    assert Numbers([""]) == [];
  }

  /** Reading a part identifier gives the path it was written from. */
  lemma {:induction false} RoundTrip(path: Path)
    requires forall i :: 0 <= i < |path| ==> path[i] <= MAX_INT
    ensures PartPath(PartID(path)) == path
  {
    if path != [] {
      RoundTrip(path[..|path| - 1]);
      ReadChild(PartID(path[..|path| - 1]), path[|path| - 1]);
    }
  }

  lemma PartIDChild(path: Path, i: nat)
    ensures PartID(path + [i]) == Child(PartID(path), i)
  {
    assert (path + [i])[..|path|] == path;
  }

  lemma NumbersLast(parts: seq<string>, word: string, n: int)
    requires Atoi(word) == Some(n)
    ensures Numbers(parts + [word]) == Numbers(parts) + [n]
  {
    assert (parts + [word])[..|parts|] == parts;
  }

  /** The entity a path leads to. */
  function At(e: Entity, path: Path): Option<Entity>
    decreases |path|
  {
    if path == [] then Some(e)
    else if e.Multipart? && 1 <= path[0] <= |e.parts| then At(e.parts[path[0] - 1], path[1..])
    else None
  }

  /** The path leads to an attachment. */
  predicate Locates(e: Entity, path: Path)
  {
    At(e, path).Some? && At(e, path).value.Attached?
  }

  function Below(i: nat, paths: seq<Path>): (r: seq<Path>)
    ensures |r| == |paths|
  {
    seq(|paths|, k requires 0 <= k < |paths| => [i] + paths[k])
  }

  /** Paths of the attachments, in the order walk meets them. */
  function Paths(e: Entity): seq<Path>
    decreases e, 1
  {
    match e
    case Attached(_) => [[]]
    case Other(_) => []
    case Multipart(parts) => PathsUpTo(e, |parts|)
  }

  function PathsUpTo(e: Entity, n: nat): seq<Path>
    requires e.Multipart? && n <= |e.parts|
    decreases e, 0, n
  {
    if n == 0 then [] else PathsUpTo(e, n - 1) + Below(n, Paths(e.parts[n - 1]))
  }

  predicate TooDeep(e: Entity, depth: nat)
    decreases e
  {
    depth > MAX_DEPTH || (e.Multipart? && exists i :: 0 <= i < |e.parts| && TooDeep(e.parts[i], depth + 1))
  }

  predicate Readable(e: Entity)
  {
    match e
    case Attached(readable) => readable
    case Other(readable) => readable
    case Multipart(parts) => forall i :: 0 <= i < |parts| ==> Readable(parts[i])
  }

  function Ids(prefix: Path, paths: seq<Path>): (r: seq<string>)
    ensures |r| == |paths|
  {
    seq(|paths|, k requires 0 <= k < |paths| => PartID(prefix + paths[k]))
  }

  /** What walk appends to. */
  class ParsedMessage {
    var attachments: seq<string>

    constructor ()
      ensures attachments == []
    {
      attachments := [];
    }

    method Walk(e: Entity, partID: string, depth: nat, ghost path: Path) returns (ok: bool)
      requires partID == PartID(path)
      modifies this
      ensures ok <==> !TooDeep(e, depth) && Readable(e)
      ensures ok ==> attachments == old(attachments) + Ids(path, Paths(e))
      decreases e, 1
    {
      if depth > MAX_DEPTH {
        return false;
      }
      match e {
        case Attached(readable) =>
          if readable {
            attachments := attachments + [partID];
            assert path + [] == path;
          }
          ok := readable;
        case Other(readable) =>
          assert attachments == attachments + [];
          ok := readable;
        case Multipart(_) =>
          ok := WalkParts(e, partID, depth, path);
      }
    }

    method WalkParts(e: Entity, partID: string, depth: nat, ghost path: Path) returns (ok: bool)
      requires e.Multipart? && partID == PartID(path) && depth <= MAX_DEPTH
      modifies this
      ensures ok <==> !TooDeep(e, depth) && Readable(e)
      ensures ok ==> attachments == old(attachments) + Ids(path, PathsUpTo(e, |e.parts|))
      decreases e, 0
    {
      var i: nat := 1;
      ghost var before := attachments;
      assert attachments == attachments + [];
      while i <= |e.parts|
        invariant 1 <= i <= |e.parts| + 1
        invariant attachments == before + Ids(path, PathsUpTo(e, i - 1))
        invariant forall k :: 0 <= k < i - 1 ==> !TooDeep(e.parts[k], depth + 1) && Readable(e.parts[k])
      {
        var s := Itoa(i);
        var subID := (if partID != "" then partID + "." else "") + s;
        ghost var sub: Path := path + [i];
        PartIDChild(path, i);
        ok := Walk(e.parts[i - 1], subID, depth + 1, sub);
        if !ok {
          return;
        }
        IdsUpTo(before, path, e, i);
        i := i + 1;
      }
      ok := true;
    }
  }

  lemma IdsUpTo(before: seq<string>, path: Path, e: Entity, i: nat)
    requires e.Multipart? && 1 <= i <= |e.parts|
    ensures before + Ids(path, PathsUpTo(e, i - 1)) + Ids(path + [i], Paths(e.parts[i - 1]))
         == before + Ids(path, PathsUpTo(e, i))
  {
    IdsBelow(path, i, PathsUpTo(e, i - 1), Paths(e.parts[i - 1]));
  }

  lemma IdsBelow(prefix: Path, i: nat, done: seq<Path>, paths: seq<Path>)
    ensures Ids(prefix, done + Below(i, paths)) == Ids(prefix, done) + Ids(prefix + [i], paths)
  {
    forall k | 0 <= k < |paths| ensures prefix + Below(i, paths)[k] == prefix + [i] + paths[k] {
    }
  }

  ghost predicate Distinct<T>(s: seq<T>)
  {
    forall i, j :: 0 <= i < j < |s| ==> s[i] != s[j]
  }

  /** The collected paths lead to exactly the attachments, each once. */
  lemma {:induction false} PathsAreAttachments(e: Entity)
    ensures forall path :: path in Paths(e) <==> Locates(e, path)
    ensures Distinct(Paths(e))
    decreases e, 1
  {
    if e.Multipart? {
      UpTo(e, |e.parts|);
      forall path ensures path in Paths(e) <==> Locates(e, path) {
        assert path in Paths(e) <==> path != [] && 1 <= path[0] <= |e.parts| && Locates(e, path);
      }
    }
  }

  lemma {:induction false} UpTo(e: Entity, n: nat)
    requires e.Multipart? && n <= |e.parts|
    ensures forall path :: path in PathsUpTo(e, n) <==> path != [] && 1 <= path[0] <= n && Locates(e, path)
    ensures Distinct(PathsUpTo(e, n))
    decreases e, 0, n
  {
    if n > 0 {
      UpTo(e, n - 1);
      PathsAreAttachments(e.parts[n - 1]);
      var before, sub := PathsUpTo(e, n - 1), Paths(e.parts[n - 1]);
      forall path ensures path in Below(n, sub) <==> path != [] && path[0] == n && path[1..] in sub {
        if path in Below(n, sub) {
          var k :| 0 <= k < |sub| && Below(n, sub)[k] == path;
          assert path[1..] == sub[k];
        }
        if path != [] && path[0] == n && path[1..] in sub {
          var k :| 0 <= k < |sub| && sub[k] == path[1..];
          assert Below(n, sub)[k] == path;
        }
      }
      DistinctBelow(before, n, sub);
    }
  }

  lemma DistinctBelow(before: seq<Path>, n: nat, sub: seq<Path>)
    requires Distinct(before) && Distinct(sub)
    requires forall path :: path in before ==> path != [] && path[0] < n
    ensures Distinct(before + Below(n, sub))
  {
    var all := before + Below(n, sub);
    forall i, j | 0 <= i < j < |all| ensures all[i] != all[j] {
      if i < |before| {
        assert before[i] in before;
      } else {
        assert all[i][1..] == sub[i - |before|] && all[j][1..] == sub[j - |before|];
      }
    }
  }

  /** Parts are numbered from one, and a path descends through multiparts only. */
  lemma AtChild(e: Entity, i: nat, path: Path)
    ensures At(e, []) == Some(e)
    ensures At(e, [i] + path) == if e.Multipart? && 1 <= i <= |e.parts| then At(e.parts[i - 1], path) else None
  {
    assert ([i] + path)[1..] == path;
  }

  /** a comes before b in reading order. */
  ghost predicate Precedes(a: Path, b: Path)
  {
    exists d :: 0 <= d < |a| && d < |b| && a[..d] == b[..d] && a[d] < b[d]
  }

  lemma {:induction false} AllAscend(e: Entity)
    ensures forall i, j :: 0 <= i < j < |Paths(e)| ==> Precedes(Paths(e)[i], Paths(e)[j])
    decreases e, 1
  {
    if e.Multipart? {
      UpToAscends(e, |e.parts|);
    }
  }

  lemma {:induction false} UpToAscends(e: Entity, n: nat)
    requires e.Multipart? && n <= |e.parts|
    ensures forall i, j :: 0 <= i < j < |PathsUpTo(e, n)| ==> Precedes(PathsUpTo(e, n)[i], PathsUpTo(e, n)[j])
    decreases e, 0, n
  {
    if n > 0 {
      UpToAscends(e, n - 1);
      UpTo(e, n - 1);
      AllAscend(e.parts[n - 1]);
      var before, sub := PathsUpTo(e, n - 1), Paths(e.parts[n - 1]);
      var all := before + Below(n, sub);
      forall i, j | 0 <= i < j < |all| ensures Precedes(all[i], all[j]) {
        if j >= |before| {
          if i < |before| {
            assert before[i] in before;
            assert all[i][..0] == all[j][..0];
          } else {
            assert Precedes(sub[i - |before|], sub[j - |before|]);
            PrecedesBelow(n, sub[i - |before|], sub[j - |before|]);
          }
        }
      }
    }
  }

  lemma PrecedesBelow(n: nat, a: Path, b: Path)
    requires Precedes(a, b)
    ensures Precedes([n] + a, [n] + b)
  {
    var d :| 0 <= d < |a| && d < |b| && a[..d] == b[..d] && a[d] < b[d];
    assert ([n] + a)[..d + 1] == [n] + a[..d] == [n] + b[..d] == ([n] + b)[..d + 1];
  }

  /** Attachments are collected in reading order: the paths of two of them part at some
      multipart, where the one collected first takes the part with the smaller number. */
  lemma PathsAscend(e: Entity, i: nat, j: nat)
    requires i < j < |Paths(e)|
    ensures exists d :: 0 <= d < |Paths(e)[i]| && d < |Paths(e)[j]| && Paths(e)[i][..d] == Paths(e)[j][..d]
                        && Paths(e)[i][d] < Paths(e)[j][d]
  {
    AllAscend(e);
    assert Precedes(Paths(e)[i], Paths(e)[j]);
  }

  /** Walk refuses depths above 64 and unreadable bodies, and nothing else. */
  lemma {:induction false} TooDeepIff(e: Entity, depth: nat)
    ensures TooDeep(e, depth) <==> exists path :: At(e, path).Some? && depth + |path| > 64
  {
    if e.Multipart? {
      forall i | 0 <= i < |e.parts|
        ensures TooDeep(e.parts[i], depth + 1) <==> exists path :: At(e.parts[i], path).Some? && depth + 1 + |path| > 64
      {
        TooDeepIff(e.parts[i], depth + 1);
      }
      if path :| At(e, path).Some? && depth + |path| > 64 {
        if path != [] {
          assert At(e.parts[path[0] - 1], path[1..]).Some?;
        }
      }
      if i :| 0 <= i < |e.parts| && TooDeep(e.parts[i], depth + 1) {
        var path :| At(e.parts[i], path).Some? && depth + 1 + |path| > 64;
        AtChild(e, i + 1, path);
        assert At(e, [i + 1] + path).Some?;
      }
    }
    if depth > 64 {
      assert At(e, []).Some?;
    }
  }

  lemma {:induction false} ReadableIff(e: Entity)
    ensures Readable(e) <==>
      forall path :: At(e, path).Some? ==> At(e, path).value.Multipart? || At(e, path).value.readable
  {
    if e.Multipart? {
      forall i | 0 <= i < |e.parts|
        ensures Readable(e.parts[i]) <==> forall path :: At(e.parts[i], path).Some? ==>
          At(e.parts[i], path).value.Multipart? || At(e.parts[i], path).value.readable
      {
        ReadableIff(e.parts[i]);
      }
      if Readable(e) {
        forall path | At(e, path).Some? ensures At(e, path).value.Multipart? || At(e, path).value.readable {
          if path != [] {
            assert At(e.parts[path[0] - 1], path[1..]).Some?;
          }
        }
      } else {
        var i :| 0 <= i < |e.parts| && !Readable(e.parts[i]);
        var path :| At(e.parts[i], path).Some?
                 && !(At(e.parts[i], path).value.Multipart? || At(e.parts[i], path).value.readable);
        AtChild(e, i + 1, path);
        assert At(e, [i + 1] + path).Some?;
      }
    } else {
      assert At(e, []) == Some(e);
    }
  }

  /** No multipart of the message has more parts than an int can count. */
  predicate Countable(e: Entity)
  {
    e.Multipart? ==> |e.parts| <= MAX_INT && forall i :: 0 <= i < |e.parts| ==> Countable(e.parts[i])
  }

  lemma {:induction false} PathBounds(e: Entity, path: Path, depth: nat)
    requires At(e, path).Some? && Countable(e) && !TooDeep(e, depth)
    ensures depth + |path| <= MAX_DEPTH
    ensures forall i :: 0 <= i < |path| ==> 1 <= path[i] <= MAX_INT
    decreases |path|
  {
    if path != [] {
      PathBounds(e.parts[path[0] - 1], path[1..], depth + 1);
      assert forall i :: 0 < i < |path| ==> path[i] == path[1..][i - 1];
    }
  }

  /** Main result: of a message that parses, the client reads back, for each attachment,
      the path of that very entity; identifiers are pairwise distinct and paths have at
      most 64 elements. */
  lemma PartIDsLocate(root: Entity)
    requires Countable(root) && !TooDeep(root, 0)
    ensures var ids := Ids([], Paths(root));
      && Distinct(ids)
      && forall k :: 0 <= k < |ids| ==>
           && PartPath(ids[k]) == Paths(root)[k]
           && Locates(root, Paths(root)[k])
           && |PartPath(ids[k])| <= MAX_DEPTH
  {
    var ids := Ids([], Paths(root));
    PathsAreAttachments(root);
    forall k | 0 <= k < |ids|
      ensures PartPath(ids[k]) == Paths(root)[k] && Locates(root, Paths(root)[k]) && |PartPath(ids[k])| <= MAX_DEPTH
    {
      var path := Paths(root)[k];
      assert path in Paths(root);
      PathBounds(root, path, 0);
      assert [] + path == path;
      RoundTrip(path);
    }
  }

  /** The part number RFC 3501 gives an entity: a message that is no multipart has only
      part 1. */
  function PartNumber(root: Entity, path: Path): Path
  {
    if root.Multipart? then path else [1]
  }

  /** The path asked of the server is the standard's part number exactly when the message
      is a multipart; a message that is itself an attachment is asked for whole. */
  lemma MatchesStandardIff(root: Entity, k: nat)
    requires Countable(root) && !TooDeep(root, 0) && k < |Paths(root)|
    ensures PartPath(Ids([], Paths(root))[k]) == PartNumber(root, Paths(root)[k]) <==> root.Multipart?
    ensures PartPath(Ids([], Paths(root))[k]) == [] <==> root.Attached?
  {
    PartIDsLocate(root);
    assert Locates(root, Paths(root)[k]);
  }
}
