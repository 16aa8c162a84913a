/** The search box: splitting a query into tokens and reading operators off them. */
module SearchTokens {
  import opened Common

  /** The loop's variables. */
  datatype Scan = Scan(out: seq<string>, cur: string, inQ: bool)

  function Flush(s: Scan): seq<string>
  {
    if s.cur != "" then s.out + [s.cur] else s.out
  }

  function Step(s: Scan, r: char): Scan
  {
    if r == '"' then Scan(s.out, s.cur + [r], !s.inQ)
    else if r == ' ' && !s.inQ then Scan(Flush(s), "", s.inQ)
    else s.(cur := s.cur + [r])
  }

  function ScanAll(q: string): Scan
  {
    if q == "" then Scan([], "", false) else Step(ScanAll(q[..|q| - 1]), q[|q| - 1])
  }

  function Tokens(q: string): seq<string>
  {
    Flush(ScanAll(q))
  }

  method Tokenize(q: string) returns (out: seq<string>)
    ensures out == Tokens(q)
  {
    out := [];
    var cur, inQ := "", false;
    for i := 0 to |q|
      invariant Scan(out, cur, inQ) == ScanAll(q[..i])
    {
      assert q[..i + 1][..i] == q[..i];
      if q[i] == '"' {
        cur, inQ := cur + [q[i]], !inQ;
      } else if q[i] == ' ' && !inQ {
        if cur != "" {
          out, cur := out + [cur], "";
        }
      } else {
        cur := cur + [q[i]];
      }
    }
    assert q[..|q|] == q;
    if cur != "" {
      out := out + [cur];
    }
  }

  /** Whether the text ends inside a quotation. */
  predicate Open(q: string)
  {
    q != "" && Open(q[..|q| - 1]) != (q[|q| - 1] == '"')
  }

  /** A quotation is open after an odd number of quotation marks. */
  lemma {:induction false} OpenIff(q: string)
    ensures Open(q) <==> multiset(q)['"'] % 2 == 1
  {
    if q != "" {
      OpenIff(q[..|q| - 1]);
      assert q == q[..|q| - 1] + [q[|q| - 1]];
    }
  }

  predicate Gap(q: string, i: nat)
    requires i < |q|
  {
    q[i] == ' ' && !Open(q[..i])
  }

  /** No space outside quotation marks. */
  predicate Solid(t: string)
  {
    forall i :: 0 <= i < |t| ==> !Gap(t, i)
  }

  predicate EndsInGap(q: string)
  {
    q != "" && Gap(q, |q| - 1)
  }

  /** The query without its unquoted spaces. */
  function Stripped(q: string): string
  {
    if q == "" then ""
    else Stripped(q[..|q| - 1]) + (if EndsInGap(q) then "" else [q[|q| - 1]])
  }

  /** The query with each run of unquoted spaces squeezed to one and the outer ones
      removed. */
  function Squeezed(q: string): string
  {
    if q == "" then ""
    else
      var front := q[..|q| - 1];
      if EndsInGap(q) then Squeezed(front)
      else Squeezed(front) + (if EndsInGap(front) && Squeezed(front) != "" then " " else "") + [q[|q| - 1]]
  }

  function Concat(ts: seq<string>): string
  {
    if ts == [] then "" else Concat(ts[..|ts| - 1]) + ts[|ts| - 1]
  }

  function Join(ts: seq<string>): string
  {
    if ts == [] then ""
    else if |ts| == 1 then ts[0]
    else Join(ts[..|ts| - 1]) + " " + ts[|ts| - 1]
  }

  /** A token as the scanner makes them. */
  predicate Token(t: string)
  {
    t != "" && Solid(t)
  }

  /** A list the scanner can have produced: only the last token may leave a quotation
      open. */
  predicate TokenList(ts: seq<string>)
  {
    && (forall i :: 0 <= i < |ts| ==> Token(ts[i]))
    && (forall i :: 0 <= i < |ts| - 1 ==> !Open(ts[i]))
  }

  lemma SolidAdd(t: string, r: char)
    requires Solid(t) && !(r == ' ' && !Open(t))
    ensures Solid(t + [r])
  {
    var u := t + [r];
    forall i | 0 <= i < |u| ensures !Gap(u, i) {
      assert u[..i] == if i < |t| then t[..i] else t;
      assert i < |t| ==> !Gap(t, i);
    }
  }

  lemma OpenAdd(t: string, r: char)
    ensures Open(t + [r]) <==> Open(t) != (r == '"')
  {
    assert (t + [r])[..|t|] == t;
  }

  /** What the loop keeps: the finished tokens are closed, the current one holds the
      quotation state of the whole query. */
  lemma {:induction false} ScanKeeps(q: string)
    ensures var s := ScanAll(q);
      && s.inQ == Open(q) == Open(s.cur)
      && Solid(s.cur) && TokenList(s.out) && (forall i :: 0 <= i < |s.out| ==> !Open(s.out[i]))
      && (s.cur == "" <==> q == "" || EndsInGap(q))
  {
    if q != "" {
      ScanKeeps(q[..|q| - 1]);
      var s, r := ScanAll(q[..|q| - 1]), q[|q| - 1];
      if r == ' ' && !s.inQ {
        assert Flush(s) == if s.cur == "" then s.out else s.out + [s.cur];
      } else {
        SolidAdd(s.cur, r);
        OpenAdd(s.cur, r);
      }
    }
  }

  /** Tokens are non-empty and hold no unquoted space. */
  lemma TokensWellFormed(q: string)
    ensures TokenList(Tokens(q))
  {
    ScanKeeps(q);
  }

  lemma ConcatAdd(ts: seq<string>, t: string)
    ensures Concat(ts + [t]) == Concat(ts) + t
  {
    assert (ts + [t])[..|ts|] == ts;
  }

  /** One more character leaves the tokens alone or extends the last one. */
  lemma TokensSnoc(front: string, r: char)
    ensures var s := ScanAll(front);
      Tokens(front + [r]) == (if r == ' ' && !Open(front) then Tokens(front) else s.out + [s.cur + [r]])
    ensures EndsInGap(front + [r]) <==> r == ' ' && !Open(front)
  {
    assert (front + [r])[..|front|] == front;
    ScanKeeps(front);
  }

  /** The tokens concatenate to the query minus its unquoted spaces. */
  lemma {:induction false} ConcatIsStripped(q: string)
    ensures Concat(Tokens(q)) == Stripped(q)
  {
    if q != "" {
      var front, r := q[..|q| - 1], q[|q| - 1];
      assert q == front + [r];
      ConcatIsStripped(front);
      TokensSnoc(front, r);
      if EndsInGap(q) {
        assert Tokens(q) == Tokens(front);
      } else {
        ConcatSnoc(ScanAll(front), r);
        assert Concat(Tokens(q)) == Concat(Tokens(front)) + [r];
      }
    }
  }

  lemma ConcatSnoc(s: Scan, r: char)
    ensures Concat(s.out + [s.cur + [r]]) == Concat(Flush(s)) + [r]
  {
    ConcatAdd(s.out, s.cur);
    ConcatAdd(s.out, s.cur + [r]);
  }

  lemma JoinAdd(ts: seq<string>, t: string)
    ensures Join(ts + [t]) == if ts == [] then t else Join(ts) + " " + t
  {
    assert (ts + [t])[..|ts|] == ts;
  }

  lemma JoinEmpty(ts: seq<string>)
    requires forall i :: 0 <= i < |ts| ==> ts[i] != ""
    ensures Join(ts) == "" <==> ts == []
  {
    if |ts| > 1 {
      assert |Join(ts)| > 0;
    }
  }

  /** Joining the tokens with single spaces squeezes the query: tokens are cut at the
      unquoted spaces and nowhere else. */
  lemma {:induction false} JoinIsSqueezed(q: string)
    ensures Join(Tokens(q)) == Squeezed(q)
  {
    if q != "" {
      var front, r := q[..|q| - 1], q[|q| - 1];
      assert q == front + [r];
      JoinIsSqueezed(front);
      TokensSnoc(front, r);
      JoinSnoc(front, r);
    }
  }

  lemma JoinSnoc(front: string, r: char)
    ensures var s := ScanAll(front);
      Join(s.out + [s.cur + [r]])
      == Join(Tokens(front)) + (if EndsInGap(front) && Join(Tokens(front)) != "" then " " else "") + [r]
  {
    var s := ScanAll(front);
    ScanKeeps(front);
    JoinAdd(s.out, s.cur);
    JoinAdd(s.out, s.cur + [r]);
    JoinEmpty(s.out);
  }

  /** Scanning a solid word from a token boundary. */
  lemma {:induction false} ScanWord(p: string, w: string)
    requires ScanAll(p).cur == "" && !ScanAll(p).inQ && Solid(w)
    ensures ScanAll(p + w) == Scan(ScanAll(p).out, w, Open(w))
    decreases |w|
  {
    if w == "" {
      assert p + w == p;
    } else {
      var front, r := w[..|w| - 1], w[|w| - 1];
      assert Solid(front) by {
        forall i | 0 <= i < |front| ensures !Gap(front, i) {
          assert front[..i] == w[..i] && !Gap(w, i);
        }
      }
      ScanWord(p, front);
      assert (p + w)[..|p + w| - 1] == p + front;
      assert !Gap(w, |w| - 1);
      assert w == front + [r];
    }
  }

  lemma {:induction false} ScanJoined(ts: seq<string>)
    requires TokenList(ts) && ts != []
    ensures var n := |ts| - 1; ScanAll(Join(ts)) == Scan(ts[..n], ts[n], Open(ts[n]))
    decreases |ts|
  {
    var n := |ts| - 1;
    if n == 0 {
      ScanWord("", ts[0]);
      assert "" + ts[0] == ts[0];
    } else {
      ScanJoined(ts[..n]);
      var p := Join(ts[..n]);
      assert ts[..n] == ts[..n - 1] + [ts[n - 1]];
      assert (p + " ")[..|p|] == p;
      assert !Open(ts[n - 1]) && Token(ts[n]);
      assert ScanAll(p + " ") == Scan(ts[..n], "", false);
      ScanWord(p + " ", ts[n]);
    }
  }

  /** Tokenizing the joined tokens gives them back. */
  lemma RetokenizeSame(q: string)
    ensures Tokens(Join(Tokens(q))) == Tokens(q)
  {
    TokensWellFormed(q);
    var ts := Tokens(q);
    if ts != [] {
      ScanJoined(ts);
      assert ts == ts[..|ts| - 1] + [ts[|ts| - 1]];
    }
  }

  /** Two queries have the same tokens exactly when they squeeze to the same text. */
  lemma SameTokensIff(q1: string, q2: string)
    ensures Tokens(q1) == Tokens(q2) <==> Squeezed(q1) == Squeezed(q2)
  {
    JoinIsSqueezed(q1);
    JoinIsSqueezed(q2);
    RetokenizeSame(q1);
    RetokenizeSame(q2);
  }

  datatype SearchSpec = SearchSpec(
    matchTerms: seq<string>, from: seq<string>, to: seq<string>, subject: seq<string>,
    hasAttachment: bool, unreadOnly: bool, accounts: seq<int>)

  /** The library calls of the token loop: lower-casing, folding comparison, integer
      parsing, trimming quotes, and quoting a term for the index. */
  datatype Library = Library(
    lower: string -> string, equalFold: (string, string) -> bool, parseInt: string -> Option<int>,
    trimQuotes: string -> string, ftsQuote: string -> string)

  function Colon(t: string): (i: nat)
    ensures i <= |t|
    ensures i < |t| ==> t[i] == ':'
    ensures forall j :: 0 <= j < i ==> t[j] != ':'
  {
    if t == "" then 0 else if t[0] == ':' then 0 else 1 + Colon(t[1..])
  }

  function AddToken(s: SearchSpec, t: string, lib: Library): SearchSpec
  {
    var i := Colon(t);
    if 0 < i < |t| && t[0] != '"' then
      var key, val := lib.lower(t[..i]), lib.trimQuotes(t[i + 1..]);
      if key == "from" then s.(from := s.from + [val])
      else if key == "to" then s.(to := s.to + [val])
      else if key == "subject" then s.(subject := s.subject + [val])
      else if key == "has" then
        s.(hasAttachment := s.hasAttachment || lib.equalFold(val, "attachment") || lib.equalFold(val, "attachments"))
      else if key == "account" then
        var id := lib.parseInt(val);
        if id.Some? then s.(accounts := s.accounts + [id.value]) else s
      else s.(matchTerms := s.matchTerms + [lib.ftsQuote(t)])
    else if lib.equalFold(t, "unread") then s.(unreadOnly := true)
    else s.(matchTerms := s.matchTerms + [lib.ftsQuote(t)])
  }

  function AddTokens(ts: seq<string>, lib: Library): SearchSpec
  {
    if ts == [] then SearchSpec([], [], [], [], false, false, [])
    else AddToken(AddTokens(ts[..|ts| - 1], lib), ts[|ts| - 1], lib)
  }

  method ParseSearchQuery(q: string, lib: Library) returns (s: SearchSpec)
    ensures s == AddTokens(Tokens(q), lib)
  {
    var tokens := Tokenize(q);
    s := SearchSpec([], [], [], [], false, false, []);
    for k := 0 to |tokens|
      invariant s == AddTokens(tokens[..k], lib)
    {
      assert tokens[..k + 1][..k] == tokens[..k];
      s := AddToken(s, tokens[k], lib);
    }
    assert tokens[..|tokens|] == tokens;
  }

  /** What a query asks for does not depend on how its tokens are spaced. */
  lemma SpacingIsIrrelevant(q1: string, q2: string, lib: Library)
    requires Squeezed(q1) == Squeezed(q2)
    ensures AddTokens(Tokens(q1), lib) == AddTokens(Tokens(q2), lib)
  {
    SameTokensIff(q1, q2);
  }

  /** Key and value of an operator token. */
  function Operator(t: string, lib: Library): Option<(string, string)>
  {
    var i := Colon(t);
    if 0 < i < |t| && t[0] != '"' then Some((lib.lower(t[..i]), lib.trimQuotes(t[i + 1..]))) else None
  }

  /** A token is an operator when it starts with neither a quotation mark nor a colon and
      has a colon; the first one ends the key. */
  lemma OperatorIff(t: string, lib: Library)
    ensures Operator(t, lib).Some? <==> t != "" && t[0] != '"' && t[0] != ':' && ':' in t
    ensures forall i | 0 < i < |t| && t[i] == ':' && ':' !in t[..i] && t[0] != '"' ::
      Operator(t, lib) == Some((lib.lower(t[..i]), lib.trimQuotes(t[i + 1..])))
  {
    forall i | 0 <= i < |t| && t[i] == ':' && ':' !in t[..i] ensures Colon(t) == i {
      forall j | 0 <= j < i ensures t[j] != ':' {
        assert t[..i][j] == t[j];
      }
    }
  }

  /** What one more token adds to each field. */
  lemma TokenAdds(ts: seq<string>, t: string, lib: Library)
    ensures AddTokens([], lib) == SearchSpec([], [], [], [], false, false, [])
    ensures var s, r, o := AddTokens(ts, lib), AddTokens(ts + [t], lib), Operator(t, lib);
      && r.from == s.from + (if o.Some? && o.value.0 == "from" then [o.value.1] else [])
      && r.to == s.to + (if o.Some? && o.value.0 == "to" then [o.value.1] else [])
      && r.subject == s.subject + (if o.Some? && o.value.0 == "subject" then [o.value.1] else [])
      && r.accounts == s.accounts + (if o.Some? && o.value.0 == "account" && lib.parseInt(o.value.1).Some?
                                     then [lib.parseInt(o.value.1).value] else [])
      && r.matchTerms == s.matchTerms
         + (if o.Some? && o.value.0 in {"from", "to", "subject", "has", "account"} then []
            else if o.None? && lib.equalFold(t, "unread") then []
            else [lib.ftsQuote(t)])
  {
    assert (ts + [t])[..|ts|] == ts;
    TokenLists(AddTokens(ts, lib), t, lib);
    TokenRest(AddTokens(ts, lib), t, lib);
  }

  /** The value a token gives to an operator. */
  function Value(t: string, key: string, lib: Library): seq<string>
  {
    var o := Operator(t, lib);
    if o.Some? && o.value.0 == key then [o.value.1] else []
  }

  /** Values given to an operator, in order. */
  function Values(ts: seq<string>, key: string, lib: Library): seq<string>
  {
    if ts == [] then [] else Values(ts[..|ts| - 1], key, lib) + Value(ts[|ts| - 1], key, lib)
  }

  function AccountOf(t: string, lib: Library): seq<int>
  {
    var v := Value(t, "account", lib);
    if v != [] && lib.parseInt(v[0]).Some? then [lib.parseInt(v[0]).value] else []
  }

  function Accounts(ts: seq<string>, lib: Library): seq<int>
  {
    if ts == [] then [] else Accounts(ts[..|ts| - 1], lib) + AccountOf(ts[|ts| - 1], lib)
  }

  /** Tokens that are neither a known operator nor the word "unread". */
  predicate IsTerm(t: string, lib: Library)
  {
    match Operator(t, lib)
    case Some((key, _)) => key !in {"from", "to", "subject", "has", "account"}
    case None => !lib.equalFold(t, "unread")
  }

  function TermOf(t: string, lib: Library): seq<string>
  {
    if IsTerm(t, lib) then [lib.ftsQuote(t)] else []
  }

  function Terms(ts: seq<string>, lib: Library): seq<string>
  {
    if ts == [] then [] else Terms(ts[..|ts| - 1], lib) + TermOf(ts[|ts| - 1], lib)
  }

  predicate AsksUnread(t: string, lib: Library)
  {
    Operator(t, lib).None? && lib.equalFold(t, "unread")
  }

  predicate AsksAttachment(t: string, lib: Library)
  {
    var v := Value(t, "has", lib);
    v != [] && (lib.equalFold(v[0], "attachment") || lib.equalFold(v[0], "attachments"))
  }

  lemma KeysDiffer()
    ensures "from" != "to" && "from" != "subject" && "from" != "has" && "from" != "account"
    ensures "to" != "subject" && "to" != "has" && "to" != "account"
    ensures "subject" != "has" && "has" != "account" && "subject" != "account"
  {
    assert "subject"[0] != "account"[0] && "from"[0] != "has"[0];
  }

  lemma TokenLists(s: SearchSpec, t: string, lib: Library)
    ensures var r := AddToken(s, t, lib);
      && r.from == s.from + Value(t, "from", lib) && r.to == s.to + Value(t, "to", lib)
      && r.subject == s.subject + Value(t, "subject", lib)
  {
    KeysDiffer();
  }

  lemma TokenRest(s: SearchSpec, t: string, lib: Library)
    ensures var r := AddToken(s, t, lib);
      && r.accounts == s.accounts + AccountOf(t, lib) && r.matchTerms == s.matchTerms + TermOf(t, lib)
      && r.unreadOnly == (s.unreadOnly || AsksUnread(t, lib))
      && r.hasAttachment == (s.hasAttachment || AsksAttachment(t, lib))
  {
    KeysDiffer();
  }

  /** Every token is used once: the values of each operator, the accounts and the match
      terms stand in their own field, in order. */
  lemma {:induction false} FieldsAre(ts: seq<string>, lib: Library)
    ensures var s := AddTokens(ts, lib);
      && s.from == Values(ts, "from", lib) && s.to == Values(ts, "to", lib) && s.subject == Values(ts, "subject", lib)
      && s.accounts == Accounts(ts, lib) && s.matchTerms == Terms(ts, lib)
  {
    if ts != [] {
      var n := |ts| - 1;
      FieldsAre(ts[..n], lib);
      TokenLists(AddTokens(ts[..n], lib), ts[n], lib);
      TokenRest(AddTokens(ts[..n], lib), ts[n], lib);
    }
  }

  /** Each switch is on exactly when some token asks for it. */
  lemma {:induction false} UnreadIff(ts: seq<string>, lib: Library)
    ensures AddTokens(ts, lib).unreadOnly <==>
      exists i :: 0 <= i < |ts| && Operator(ts[i], lib).None? && lib.equalFold(ts[i], "unread")
  {
    if ts != [] {
      var n := |ts| - 1;
      UnreadIff(ts[..n], lib);
      TokenRest(AddTokens(ts[..n], lib), ts[n], lib);
      assert forall i :: 0 <= i < n ==> ts[..n][i] == ts[i];
    }
  }

  lemma {:induction false} AttachmentIff(ts: seq<string>, lib: Library)
    ensures AddTokens(ts, lib).hasAttachment <==> exists i ::
      && 0 <= i < |ts|
      && Operator(ts[i], lib).Some? && Operator(ts[i], lib).value.0 == "has"
      && (lib.equalFold(Operator(ts[i], lib).value.1, "attachment")
          || lib.equalFold(Operator(ts[i], lib).value.1, "attachments"))
  {
    if ts != [] {
      var n := |ts| - 1;
      AttachmentIff(ts[..n], lib);
      TokenRest(AddTokens(ts[..n], lib), ts[n], lib);
      assert forall i :: 0 <= i < n ==> ts[..n][i] == ts[i];
    }
  }
}
