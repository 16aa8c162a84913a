/**
 * From flags flipped in the database to STORE commands on the server: one operation
 * per (account, folder), and the drain loop and the downloader, which both remember
 * the mailbox they selected last.
 */
module FlagRouting {
  import opened Common

  datatype FolderKey = FolderKey(account: int, folder: int)

  datatype Change = Change(key: FolderKey, uid: int)

  /** The UIDs of one folder's changes, in order. */
  function UidsOf(changed: seq<Change>, k: FolderKey): seq<int>
  {
    if changed == [] then []
    else
      var c := changed[|changed| - 1];
      UidsOf(changed[..|changed| - 1], k) + (if c.key == k then [c.uid] else [])
  }

  function Keys(changed: seq<Change>): set<FolderKey>
  {
    set c | c in changed :: c.key
  }

  /** The grouping loop of MarkRead and ToggleThreadFlagged. */
  method Group(changed: seq<Change>) returns (groups: map<FolderKey, seq<int>>)
    ensures groups.Keys == Keys(changed)
    ensures forall k :: k in groups ==> groups[k] == UidsOf(changed, k)
  {
    groups := map[];
    for i := 0 to |changed|
      invariant groups.Keys == Keys(changed[..i])
      invariant forall k :: k in groups ==> groups[k] == UidsOf(changed[..i], k)
    {
      var c := changed[i];
      assert changed[..i + 1] == changed[..i] + [c] && changed[..i + 1][..i] == changed[..i];
      if c.key !in groups {
        AbsentKey(changed[..i], c.key);
      }
      groups := groups[c.key := (if c.key in groups then groups[c.key] else []) + [c.uid]];
    }
    assert changed[..|changed|] == changed;
  }

  lemma {:induction false} AbsentKey(changed: seq<Change>, k: FolderKey)
    requires k !in Keys(changed)
    ensures UidsOf(changed, k) == []
  {
    if changed != [] {
      AbsentKey(changed[..|changed| - 1], k);
      assert changed[|changed| - 1] in changed;
    }
  }

  /** Where change i ends up in its folder's operation. */
  function Place(changed: seq<Change>, i: nat): nat
    requires i < |changed|
  {
    |UidsOf(changed[..i], changed[i].key)|
  }

  lemma {:induction false} UidsPrefix(changed: seq<Change>, i: nat, k: FolderKey)
    requires i <= |changed|
    ensures UidsOf(changed[..i], k) <= UidsOf(changed, k)
  {
    if i == |changed| {
      assert changed[..i] == changed;
    } else {
      UidsPrefix(changed[..|changed| - 1], i, k);
      assert changed[..|changed| - 1][..i] == changed[..i];
    }
  }

  /** No change is lost: each is at its place in its own folder's operation. */
  lemma NothingLost(changed: seq<Change>, i: nat)
    requires i < |changed|
    ensures Place(changed, i) < |UidsOf(changed, changed[i].key)|
    ensures UidsOf(changed, changed[i].key)[Place(changed, i)] == changed[i].uid
  {
    assert changed[..i + 1][..i] == changed[..i];
    UidsPrefix(changed, i + 1, changed[i].key);
  }

  /** Two changes of one folder keep their order, so no place is used twice. */
  lemma OrderKept(changed: seq<Change>, i: nat, j: nat)
    requires i < j < |changed| && changed[i].key == changed[j].key
    ensures Place(changed, i) < Place(changed, j)
  {
    assert changed[..j][..i] == changed[..i];
    NothingLost(changed[..j], i);
  }

  /** Nothing is invented: each place of an operation is some change of its folder. */
  lemma {:induction false} NothingInvented(changed: seq<Change>, k: FolderKey, p: nat) returns (i: nat)
    requires p < |UidsOf(changed, k)|
    ensures i < |changed| && changed[i].key == k && Place(changed, i) == p
  {
    var n := |changed| - 1;
    if p < |UidsOf(changed[..n], k)| {
      i := NothingInvented(changed[..n], k, p);
      assert changed[..n][..i] == changed[..i];
    } else {
      i := n;
    }
  }

  /** Last SELECT remembered by the program, and the mailbox the server has selected. */
  datatype Selection = Selection(cached: string, selected: Option<string>)

  datatype SelectReply =
    | Selected     // OK
    | Refused      // NO: no mailbox is selected any more
    | NotSent      // the command never reached the server

  /** The SELECT cache of both loops; `ready` is whether the next command is sent. */
  function Enter(s: Selection, name: string, reply: SelectReply): (r: (Selection, bool))
  {
    if name == s.cached then (s, true)
    else match reply
      case Selected => (Selection(name, Some(name)), true)
      case Refused => (s.(selected := None), false)
      case NotSent => (s, false)
  }

  /** The server has the cached mailbox selected, or none. */
  predicate Coherent(s: Selection)
  {
    s.cached == "" || s.selected == None || s.selected == Some(s.cached)
  }

  /** A command sent after Enter reaches the mailbox that was asked for, or none. */
  lemma EnterSafe(s: Selection, name: string, reply: SelectReply)
    requires Coherent(s) && name != ""
    ensures Coherent(Enter(s, name, reply).0)
    ensures Enter(s, name, reply).1 ==> Enter(s, name, reply).0.selected in {None, Some(name)}
  {
  }

  datatype Folder = Folder(id: int, name: string)

  datatype Op = Op(folder: int, uids: seq<int>, add: bool, flag: string)

  /** A command the server carried out, with the mailbox that was selected. */
  datatype Sent = Sent(mailbox: string, op: Op)

  /** The drain loop's variables, the server's selection, and what it carried out. */
  datatype Drain = Drain(synced: seq<Folder>, selection: Selection, sent: seq<Sent>)

  /** What the outside answers while one operation is handled. */
  datatype Answers = Answers(listed: Option<seq<Folder>>, select: SelectReply, stored: bool)

  /** First folder with this id; "" when there is none. */
  function NameOf(folders: seq<Folder>, id: int): string
  {
    if folders == [] then "" else if folders[0].id == id then folders[0].name else NameOf(folders[1..], id)
  }

  /** The snapshot, extended by the store's folder list when the id is not in it. */
  function Lookup(synced: seq<Folder>, id: int, listed: Option<seq<Folder>>): (string, seq<Folder>)
  {
    var name := NameOf(synced, id);
    if name != "" || listed.None? then (name, synced)
    else
      var found := NameOf(listed.value, id);
      (found, if Listed(listed.value, id) then synced + [Folder(id, found)] else synced)
  }

  /** The first entry with the id decides. */
  lemma {:induction false} NameOfFirst(folders: seq<Folder>, id: int)
    ensures forall i | 0 <= i < |folders| && folders[i].id == id && (forall j :: 0 <= j < i ==> folders[j].id != id) ::
      NameOf(folders, id) == folders[i].name
    ensures (forall i :: 0 <= i < |folders| ==> folders[i].id != id) ==> NameOf(folders, id) == ""
  {
    if folders != [] {
      NameOfFirst(folders[1..], id);
      forall i | 0 <= i < |folders| && folders[i].id == id && (forall j :: 0 <= j < i ==> folders[j].id != id)
        ensures NameOf(folders, id) == folders[i].name
      {
        if i > 0 {
          assert folders[0].id != id;
          assert folders[1..][i - 1] == folders[i];
        }
      }
    }
  }

  /** A name that is found is remembered: later operations on the folder find the same one,
      whatever the store then lists; and no other folder's name changes.  The snapshot's
      own names are taken to be non-empty. */
  lemma LookupRemembers(synced: seq<Folder>, id: int, listed: Option<seq<Folder>>, later: Option<seq<Folder>>,
      other: int)
    ensures var (name, after) := Lookup(synced, id, listed);
      && (name != "" && (forall i :: 0 <= i < |synced| && synced[i].id == id ==> synced[i].name != "") ==>
            Lookup(after, id, later) == (name, after))
      && (other != id ==> NameOf(after, other) == NameOf(synced, other))
      && (NameOf(synced, id) != "" ==> name == NameOf(synced, id))
      && (NameOf(synced, id) == "" && listed.Some? ==> name == NameOf(listed.value, id))
  {
    var (name, after) := Lookup(synced, id, listed);
    if NameOf(synced, id) == "" && forall i :: 0 <= i < |synced| && synced[i].id == id ==> synced[i].name != "" {
      Unnamed(synced, id);
    }
    if |after| > |synced| {
      NameAppended(synced, Folder(id, name), id);
      NameAppended(synced, Folder(id, name), other);
    } else if name != "" && NameOf(synced, id) == "" {
      NotListed(listed.value, id);
    }
  }

  lemma {:induction false} Unnamed(folders: seq<Folder>, id: int)
    requires NameOf(folders, id) == ""
    requires forall i :: 0 <= i < |folders| && folders[i].id == id ==> folders[i].name != ""
    ensures forall i :: 0 <= i < |folders| ==> folders[i].id != id
  {
    if folders != [] {
      assert folders[0].id != id;
      forall i | 0 <= i < |folders[1..]| && folders[1..][i].id == id ensures folders[1..][i].name != "" {
        assert folders[1..][i] == folders[i + 1];
      }
      Unnamed(folders[1..], id);
      forall i | 0 < i < |folders| ensures folders[i].id != id {
        assert folders[1..][i - 1] == folders[i];
      }
    }
  }

  lemma {:induction false} NameAppended(folders: seq<Folder>, f: Folder, id: int)
    ensures NameOf(folders, id) != "" ==> NameOf(folders + [f], id) == NameOf(folders, id)
    ensures f.id != id ==> NameOf(folders + [f], id) == NameOf(folders, id)
    ensures f.id == id && (forall i :: 0 <= i < |folders| ==> folders[i].id != id) ==>
      NameOf(folders + [f], id) == f.name
  {
    if folders == [] {
      assert ([] + [f])[0] == f && ([] + [f])[1..] == [];
    } else {
      assert (folders + [f])[1..] == folders[1..] + [f];
      NameAppended(folders[1..], f, id);
    }
  }

  predicate Listed(folders: seq<Folder>, id: int)
  {
    exists i :: 0 <= i < |folders| && folders[i].id == id
  }

  function DrainOp(d: Drain, op: Op, answers: Answers): Drain
  {
    var (name, synced) := Lookup(d.synced, op.folder, answers.listed);
    if name == "" then d.(synced := synced)
    else
      var (selection, ready) := Enter(d.selection, name, answers.select);
      var sent := if ready && op.uids != [] && selection.selected.Some? && answers.stored
                  then [Sent(selection.selected.value, op)] else [];
      Drain(synced, selection, d.sent + sent)
  }

  function DrainAll(d: Drain, ops: seq<Op>, answers: seq<Answers>): Drain
    requires |ops| == |answers|
  {
    if ops == [] then d
    else DrainOp(DrainAll(d, ops[..|ops| - 1], answers[..|ops| - 1]), ops[|ops| - 1], answers[|ops| - 1])
  }

  /** The true mailbox of each folder row. */
  predicate Truthful(folders: seq<Folder>, mailbox: map<int, string>)
  {
    forall i :: 0 <= i < |folders| ==> folders[i].id in mailbox && mailbox[folders[i].id] == folders[i].name
  }

  lemma {:induction false} NameIsTrue(folders: seq<Folder>, mailbox: map<int, string>, id: int)
    requires Truthful(folders, mailbox) && NameOf(folders, id) != ""
    ensures id in mailbox && mailbox[id] == NameOf(folders, id)
  {
    if folders[0].id != id {
      NameIsTrue(folders[1..], mailbox, id);
    }
  }

  ghost predicate Routed(d: Drain, mailbox: map<int, string>)
  {
    && Truthful(d.synced, mailbox) && Coherent(d.selection)
    && forall i :: 0 <= i < |d.sent| ==>
         d.sent[i].op.folder in mailbox && d.sent[i].mailbox == mailbox[d.sent[i].op.folder]
  }

  lemma LookupTrue(synced: seq<Folder>, id: int, listed: Option<seq<Folder>>, mailbox: map<int, string>)
    requires Truthful(synced, mailbox) && (listed.Some? ==> Truthful(listed.value, mailbox))
    ensures Truthful(Lookup(synced, id, listed).1, mailbox)
    ensures Lookup(synced, id, listed).0 != "" ==> id in mailbox && mailbox[id] == Lookup(synced, id, listed).0
  {
    if NameOf(synced, id) != "" {
      NameIsTrue(synced, mailbox, id);
    } else if listed.Some? && Listed(listed.value, id) {
      ListedIsTrue(listed.value, mailbox, id);
    } else if listed.Some? {
      NotListed(listed.value, id);
    }
  }

  lemma {:induction false} ListedIsTrue(folders: seq<Folder>, mailbox: map<int, string>, id: int)
    requires Truthful(folders, mailbox) && Listed(folders, id)
    ensures id in mailbox && mailbox[id] == NameOf(folders, id)
  {
    var i :| 0 <= i < |folders| && folders[i].id == id;
    if folders[0].id != id {
      assert folders[1..][i - 1].id == id;
      ListedIsTrue(folders[1..], mailbox, id);
    }
  }

  lemma {:induction false} NotListed(folders: seq<Folder>, id: int)
    requires !Listed(folders, id)
    ensures NameOf(folders, id) == ""
  {
    if folders != [] {
      assert folders[0].id != id;
      forall i | 0 <= i < |folders[1..]| ensures folders[1..][i].id != id {
        assert folders[1..][i] == folders[i + 1];
      }
      NotListed(folders[1..], id);
    }
  }

  predicate AnswersTruthful(answers: seq<Answers>, mailbox: map<int, string>)
  {
    forall i :: 0 <= i < |answers| && answers[i].listed.Some? ==> Truthful(answers[i].listed.value, mailbox)
  }

  /** Whatever the server answers, every STORE it carries out is on the mailbox of the
      operation's own folder. */
  lemma {:induction false} RoutedRight(d: Drain, ops: seq<Op>, answers: seq<Answers>, mailbox: map<int, string>)
    requires |ops| == |answers| && Routed(d, mailbox) && AnswersTruthful(answers, mailbox)
    ensures Routed(DrainAll(d, ops, answers), mailbox)
    decreases |ops|
  {
    if ops != [] {
      var n := |ops| - 1;
      RoutedRight(d, ops[..n], answers[..n], mailbox);
      RoutedStep(DrainAll(d, ops[..n], answers[..n]), ops[n], answers[n], mailbox);
    }
  }

  lemma RoutedStep(d: Drain, op: Op, answers: Answers, mailbox: map<int, string>)
    requires Routed(d, mailbox) && (answers.listed.Some? ==> Truthful(answers.listed.value, mailbox))
    ensures Routed(DrainOp(d, op, answers), mailbox)
  {
    LookupTrue(d.synced, op.folder, answers.listed, mailbox);
    var name := Lookup(d.synced, op.folder, answers.listed).0;
    if name != "" {
      EnterSafe(d.selection, name, answers.select);
    }
  }

  /** Its folder is known; the server accepts the SELECT, or the loop believes the mailbox
      is selected and is right; and the STORE succeeds. */
  predicate CarriedOut(d: Drain, op: Op, answers: Answers)
  {
    var name := Lookup(d.synced, op.folder, answers.listed).0;
    && name != "" && op.uids != [] && answers.stored
    && (if name == d.selection.cached then d.selection.selected != None else answers.select.Selected?)
  }

  /** Exactly when an operation reaches the server; otherwise the server sees nothing. */
  lemma CarriedOutIff(d: Drain, op: Op, answers: Answers)
    requires Coherent(d.selection)
    ensures DrainOp(d, op, answers).sent
         == d.sent
           + (if CarriedOut(d, op, answers) then [Sent(Lookup(d.synced, op.folder, answers.listed).0, op)] else [])
    ensures CarriedOut(d, op, answers) <==>
      var name := Lookup(d.synced, op.folder, answers.listed).0;
      && name != "" && op.uids != [] && answers.stored
      && if name == d.selection.cached then d.selection.selected.Some? else answers.select.Selected?
  {
    var name := Lookup(d.synced, op.folder, answers.listed).0;
    if name != "" {
      EnterSafe(d.selection, name, answers.select);
    }
    assert d.sent + [] == d.sent;
  }

  /** The operations of a run that are carried out, in order. */
  function Carried(d: Drain, ops: seq<Op>, answers: seq<Answers>): seq<Op>
    requires |ops| == |answers|
  {
    if ops == [] then []
    else
      var n := |ops| - 1;
      Carried(d, ops[..n], answers[..n])
      + (if CarriedOut(DrainAll(d, ops[..n], answers[..n]), ops[n], answers[n]) then [ops[n]] else [])
  }

  lemma {:induction false} CarriedAreOps(d: Drain, ops: seq<Op>, answers: seq<Answers>)
    requires |ops| == |answers|
    ensures forall op :: op in Carried(d, ops, answers) ==> op in ops
  {
    if ops != [] {
      CarriedAreOps(d, ops[..|ops| - 1], answers[..|ops| - 1]);
    }
  }

  /** What a run sends is what is carried out, each on its folder's true mailbox. */
  lemma {:induction false} SentIsCarried(d: Drain, ops: seq<Op>, answers: seq<Answers>, mailbox: map<int, string>)
    requires |ops| == |answers| && Routed(d, mailbox) && AnswersTruthful(answers, mailbox)
    ensures forall op :: op in Carried(d, ops, answers) ==> op.folder in mailbox
    ensures DrainAll(d, ops, answers).sent == d.sent + Deliveries(mailbox, Carried(d, ops, answers))
    decreases |ops|
  {
    if ops != [] {
      var n := |ops| - 1;
      assert AnswersTruthful(answers[..n], mailbox);
      SentIsCarried(d, ops[..n], answers[..n], mailbox);
      RoutedRight(d, ops[..n], answers[..n], mailbox);
      var mid := DrainAll(d, ops[..n], answers[..n]);
      CarriedOutIff(mid, ops[n], answers[n]);
      LookupTrue(mid.synced, ops[n].folder, answers[n].listed, mailbox);
      DeliveriesAdd(mailbox, Carried(d, ops[..n], answers[..n]), ops[n]);
    } else {
      assert d.sent + [] == d.sent;
    }
  }

  /** Each operation on the mailbox of its folder; "" stands for a folder without one. */
  function Deliveries(mailbox: map<int, string>, ops: seq<Op>): (r: seq<Sent>)
    ensures |r| == |ops|
  {
    seq(|ops|,
      i requires 0 <= i < |ops| => Sent(if ops[i].folder in mailbox then mailbox[ops[i].folder] else "", ops[i]))
  }

  lemma DeliveriesAdd(mailbox: map<int, string>, ops: seq<Op>, op: Op)
    ensures op.folder in mailbox ==>
      Deliveries(mailbox, ops + [op]) == Deliveries(mailbox, ops) + [Sent(mailbox[op.folder], op)]
    ensures ops + [] == ops
  {
  }

  /** A SELECT the server refuses deselects but is not remembered: the next operation on
      the folder selected before it sends its STORE with nothing selected and is lost,
      although a SELECT would have succeeded. */
  lemma StaleSelectionLosesOp(inbox: Folder, gone: Folder, uid: int, flag: string)
    requires inbox.id != gone.id && inbox.name != gone.name && inbox.name != "" && gone.name != ""
    ensures var d := Drain([inbox, gone], Selection("", None), []);
      var ops := [Op(inbox.id, [uid], true, flag), Op(gone.id, [uid], true, flag), Op(inbox.id, [uid], true, flag)];
      var answers := [Answers(None, Selected, true), Answers(None, Refused, true), Answers(None, Selected, true)];
      DrainAll(d, ops, answers).sent == [Sent(inbox.name, ops[0])]
  {
    var d := Drain([inbox, gone], Selection("", None), []);
    var ops := [Op(inbox.id, [uid], true, flag), Op(gone.id, [uid], true, flag), Op(inbox.id, [uid], true, flag)];
    var answers := [Answers(None, Selected, true), Answers(None, Refused, true), Answers(None, Selected, true)];
    assert NameOf(d.synced, inbox.id) == inbox.name;
    assert d.synced[1..] == [gone] && NameOf([gone], gone.id) == gone.name && NameOf(d.synced, gone.id) == gone.name;
    var d1 := DrainOp(d, ops[0], answers[0]);
    var d2 := DrainOp(d1, ops[1], answers[1]);
    var d3 := DrainOp(d2, ops[2], answers[2]);
    assert d1 == Drain(d.synced, Selection(inbox.name, Some(inbox.name)), [Sent(inbox.name, ops[0])]);
    assert d2 == d1.(selection := Selection(inbox.name, None));
    assert d3 == d2;
    assert DrainAll(d, [], []) == d;
    assert ops[..2][..1][..0] == [] && ops[..2][..1] == [ops[0]] && ops[..2] == [ops[0], ops[1]];
    assert answers[..2][..1][..0] == [] && answers[..2][..1] == [answers[0]]
      && answers[..2] == [answers[0], answers[1]];
    assert DrainAll(d, ops[..2][..1], answers[..2][..1]) == d1;
    assert DrainAll(d, ops[..2], answers[..2]) == d2;
  }

  /** The cached mailbox is really selected. */
  predicate Healthy(s: Selection)
  {
    s.cached == "" || s.selected == Some(s.cached)
  }

  predicate AllOk(answers: seq<Answers>)
  {
    forall i :: 0 <= i < |answers| ==> answers[i].select.Selected? && answers[i].stored
  }

  /** The folder is in the snapshot or in the list the store gives. */
  predicate Known(synced: seq<Folder>, op: Op, answers: Answers)
  {
    NameOf(synced, op.folder) != "" || (answers.listed.Some? && NameOf(answers.listed.value, op.folder) != "")
  }

  predicate AllKnown(synced: seq<Folder>, ops: seq<Op>, answers: seq<Answers>)
    requires |ops| == |answers|
  {
    forall i :: 0 <= i < |ops| ==> ops[i].uids != [] && Known(synced, ops[i], answers[i])
  }

  ghost predicate KeepsNames(synced: seq<Folder>, t: seq<Folder>)
  {
    forall id :: NameOf(synced, id) != "" ==> NameOf(t, id) != ""
  }

  /** When nothing is refused and every folder is known, in the snapshot or afresh, every
      operation is carried out. */
  lemma {:induction false} HealthyDelivers(d: Drain, ops: seq<Op>, answers: seq<Answers>)
    requires |ops| == |answers| && Healthy(d.selection) && AllOk(answers) && AllKnown(d.synced, ops, answers)
    ensures Carried(d, ops, answers) == ops
    ensures Healthy(DrainAll(d, ops, answers).selection) && KeepsNames(d.synced, DrainAll(d, ops, answers).synced)
    decreases |ops|
  {
    if ops != [] {
      var n := |ops| - 1;
      assert AllOk(answers[..n]) && AllKnown(d.synced, ops[..n], answers[..n]);
      HealthyDelivers(d, ops[..n], answers[..n]);
      assert answers[n].select.Selected? && answers[n].stored && ops[n].uids != []
        && Known(d.synced, ops[n], answers[n]);
      HealthyLast(d, ops, answers);
    }
  }

  lemma HealthyLast(d: Drain, ops: seq<Op>, answers: seq<Answers>)
    requires ops != [] && |ops| == |answers|
    requires var n := |ops| - 1; var s := DrainAll(d, ops[..n], answers[..n]);
      && Healthy(s.selection) && KeepsNames(d.synced, s.synced) && Carried(d, ops[..n], answers[..n]) == ops[..n]
      && answers[n].select.Selected? && answers[n].stored && ops[n].uids != [] && Known(d.synced, ops[n], answers[n])
    ensures Carried(d, ops, answers) == ops
    ensures Healthy(DrainAll(d, ops, answers).selection) && KeepsNames(d.synced, DrainAll(d, ops, answers).synced)
  {
    var n := |ops| - 1;
    var s := DrainAll(d, ops[..n], answers[..n]);
    var e := DrainOp(s, ops[n], answers[n]);
    assert Known(s.synced, ops[n], answers[n]);
    HealthyStep(s, ops[n], answers[n]);
    assert Carried(d, ops, answers) == ops[..n] + [ops[n]] == ops;
    assert DrainAll(d, ops, answers) == e;
    assert KeepsNames(d.synced, e.synced);
  }

  lemma HealthyStep(s: Drain, op: Op, answers: Answers)
    requires Healthy(s.selection) && answers.select.Selected? && answers.stored
    requires op.uids != [] && Known(s.synced, op, answers)
    ensures CarriedOut(s, op, answers)
    ensures Healthy(DrainOp(s, op, answers).selection) && KeepsNames(s.synced, DrainOp(s, op, answers).synced)
  {
    forall id | NameOf(s.synced, id) != "" ensures NameOf(DrainOp(s, op, answers).synced, id) != "" {
      NameAppended(s.synced, Folder(op.folder, Lookup(s.synced, op.folder, answers.listed).0), id);
    }
  }

  /** The operation of one folder's changes. */
  function OpOf(changed: seq<Change>, k: FolderKey, add: bool, flag: string): Op
  {
    Op(k.folder, UidsOf(changed, k), add, flag)
  }

  /** The operations one account's worker is handed for a set of changes; the groups are
      visited in the order of `keys`. */
  function OpsFor(changed: seq<Change>, keys: seq<FolderKey>, add: bool, flag: string): (ops: seq<Op>)
    ensures |ops| == |keys|
  {
    seq(|keys|, i requires 0 <= i < |keys| => OpOf(changed, keys[i], add, flag))
  }

  ghost predicate Covers(keys: seq<FolderKey>, changed: seq<Change>, account: int)
  {
    forall k :: k in keys <==> k in Keys(changed) && k.account == account
  }

  /** A change of this account, in the mailbox `box`. */
  predicate Touches(mailbox: map<int, string>, c: Change, account: int, box: string, uid: int)
  {
    c.key.account == account && c.key.folder in mailbox && mailbox[c.key.folder] == box && c.uid == uid
  }

  predicate SomeSent(sent: seq<Sent>, box: string, uid: int)
  {
    exists i :: 0 <= i < |sent| && sent[i].mailbox == box && uid in sent[i].op.uids
  }

  /** End to end, whatever the server answers: a message is flagged in a mailbox exactly
      when one of the account's changes is that message in that mailbox and its folder's
      operation is carried out; the flag and its sign are the ones asked for. */
  lemma EndToEnd(d: Drain, changed: seq<Change>, account: int, keys: seq<FolderKey>, add: bool, flag: string,
                 answers: seq<Answers>, mailbox: map<int, string>, box: string, uid: int)
    requires |keys| == |answers| && Covers(keys, changed, account)
    requires d.sent == [] && Routed(d, mailbox) && AnswersTruthful(answers, mailbox)
    ensures var ops := OpsFor(changed, keys, add, flag);
      var sent := DrainAll(d, ops, answers).sent;
      && (forall i :: 0 <= i < |sent| ==> sent[i].op.add == add && sent[i].op.flag == flag)
      && (SomeSent(sent, box, uid) <==>
          exists c :: c in changed && Touches(mailbox, c, account, box, uid)
                   && OpOf(changed, c.key, add, flag) in Carried(d, ops, answers))
  {
    var ops := OpsFor(changed, keys, add, flag);
    var carried := Carried(d, ops, answers);
    SentIsCarried(d, ops, answers, mailbox);
    assert DrainAll(d, ops, answers).sent == Deliveries(mailbox, carried);
    CarriedAreOps(d, ops, answers);
    SentIffTouched(changed, account, keys, add, flag, carried, mailbox, box, uid);
  }

  lemma SentIffTouched(changed: seq<Change>, account: int, keys: seq<FolderKey>, add: bool, flag: string,
                       carried: seq<Op>, mailbox: map<int, string>, box: string, uid: int)
    requires Covers(keys, changed, account)
    requires forall op :: op in carried ==> op in OpsFor(changed, keys, add, flag) && op.folder in mailbox
    ensures var sent := Deliveries(mailbox, carried);
      && (forall i :: 0 <= i < |sent| ==> sent[i].op.add == add && sent[i].op.flag == flag)
      && (SomeSent(sent, box, uid) <==>
          exists c ::
            c in changed && Touches(mailbox, c, account, box, uid) && OpOf(changed, c.key, add, flag) in carried)
  {
    var sent := Deliveries(mailbox, carried);
    forall i | 0 <= i < |sent| ensures sent[i].op.add == add && sent[i].op.flag == flag {
      assert sent[i].op in carried;
    }
    if SomeSent(sent, box, uid) {
      var i :| 0 <= i < |sent| && sent[i].mailbox == box && uid in sent[i].op.uids;
      assert carried[i] in carried;
      var c := ChangeOfOp(changed, keys, account, add, flag, carried[i], uid);
      assert Touches(mailbox, c, account, box, uid);
    }
    if c :| c in changed && Touches(mailbox, c, account, box, uid) && OpOf(changed, c.key, add, flag) in carried {
      var i :| 0 <= i < |carried| && carried[i] == OpOf(changed, c.key, add, flag);
      var j :| 0 <= j < |changed| && changed[j] == c;
      NothingLost(changed, j);
      assert sent[i].mailbox == box && uid in sent[i].op.uids;
    }
  }

  lemma ChangeOfOp(changed: seq<Change>, keys: seq<FolderKey>, account: int, add: bool,
      flag: string, op: Op, uid: int) returns (c: Change)
    requires Covers(keys, changed, account) && op in OpsFor(changed, keys, add, flag) && uid in op.uids
    ensures c in changed && c.key.account == account && c.uid == uid && op == OpOf(changed, c.key, add, flag)
  {
    var i :| 0 <= i < |keys| && OpsFor(changed, keys, add, flag)[i] == op;
    assert keys[i] in keys;
    var p :| 0 <= p < |op.uids| && op.uids[p] == uid;
    var j := NothingInvented(changed, keys[i], p);
    NothingLost(changed, j);
    c := changed[j];
  }

  /** With nothing refused and every folder known, every change is made and no other. */
  lemma {:induction false} EveryChangeMade(d: Drain, changed: seq<Change>, account: int,
      keys: seq<FolderKey>, add: bool, flag: string,
                        answers: seq<Answers>, mailbox: map<int, string>, box: string, uid: int)
    requires |keys| == |answers| && Covers(keys, changed, account)
    requires d.sent == [] && Routed(d, mailbox) && AnswersTruthful(answers, mailbox)
    requires Healthy(d.selection) && AllOk(answers)
    requires forall i :: 0 <= i < |keys| ==> Known(d.synced, OpOf(changed, keys[i], add, flag), answers[i])
    ensures SomeSent(DrainAll(d, OpsFor(changed, keys, add, flag), answers).sent, box, uid)
      <==> exists c :: c in changed && Touches(mailbox, c, account, box, uid)
  {
    var ops := OpsFor(changed, keys, add, flag);
    forall i | 0 <= i < |ops| ensures ops[i].uids != [] && Known(d.synced, ops[i], answers[i]) {
      OpNotEmpty(changed, keys, account, i);
    }
    HealthyDelivers(d, ops, answers);
    EndToEnd(d, changed, account, keys, add, flag, answers, mailbox, box, uid);
    forall c | c in changed && Touches(mailbox, c, account, box, uid) ensures OpOf(changed, c.key, add, flag) in ops {
      assert c.key in Keys(changed);
      assert c.key in keys;
      var i :| 0 <= i < |keys| && keys[i] == c.key;
      assert ops[i] == OpOf(changed, c.key, add, flag);
    }
  }

  lemma OpNotEmpty(changed: seq<Change>, keys: seq<FolderKey>, account: int, i: nat)
    requires Covers(keys, changed, account) && i < |keys|
    ensures UidsOf(changed, keys[i]) != []
  {
    assert keys[i] in keys;
    var j :| 0 <= j < |changed| && changed[j].key == keys[i];
    NothingLost(changed, j);
  }

  /** MarkFolderRead: changes of one folder make one operation with all their UIDs. */
  lemma {:induction false} OneFolder(changed: seq<Change>, k: FolderKey)
    requires forall i :: 0 <= i < |changed| ==> changed[i].key == k
    ensures |UidsOf(changed, k)| == |changed|
    ensures forall i :: 0 <= i < |changed| ==> UidsOf(changed, k)[i] == changed[i].uid
  {
    if changed != [] {
      OneFolder(changed[..|changed| - 1], k);
    }
  }

  /** The session and the loop variables of runOnce. */
  class Worker {
    var synced: seq<Folder>
    var currentSel: string
    var selected: Option<string>
    var sent: seq<Sent>

    ghost function View(): Drain
      reads this
    {
      Drain(synced, Selection(currentSel, selected), sent)
    }

    method Select(name: string, reply: SelectReply) returns (ok: bool)
      modifies this`selected
      ensures ok == reply.Selected?
      ensures selected == match reply case Selected => Some(name) case Refused => None case NotSent => old(selected)
    {
      match reply {
        case Selected => selected := Some(name);
        case Refused => selected := None;
        case NotSent =>
      }
      ok := reply.Selected?;
    }

    method FindName(folders: seq<Folder>, id: int) returns (name: string)
      ensures name == NameOf(folders, id)
    {
      for i := 0 to |folders|
        invariant NameOf(folders, id) == NameOf(folders[i..], id)
      {
        if folders[i].id == id {
          return folders[i].name;
        }
        assert folders[i..][1..] == folders[i + 1..];
      }
      name := "";
    }

    method Handle(op: Op, answers: Answers)
      modifies this
      ensures View() == DrainOp(old(View()), op, answers)
      ensures old(Coherent(View().selection)) ==>
        sent == old(sent) + (if CarriedOut(old(View()), op, answers)
          then [Sent(Lookup(old(synced), op.folder, answers.listed).0, op)] else [])
    {
      if Coherent(View().selection) {
        CarriedOutIff(View(), op, answers);
      }
      var name := FindName(synced, op.folder);
      if name == "" && answers.listed.Some? {
        name := FindName(answers.listed.value, op.folder);
        if exists i :: 0 <= i < |answers.listed.value| && answers.listed.value[i].id == op.folder {
          synced := synced + [Folder(op.folder, name)];
        }
      }
      if name == "" {
        return;
      }
      if name != currentSel {
        var ok := Select(name, answers.select);
        if !ok {
          return;
        }
        currentSel := name;
      }
      if op.uids != [] && selected.Some? && answers.stored {
        sent := sent + [Sent(selected.value, op)];
      }
    }

    /** The drain loop on the operations that arrive before the context is cancelled:
        every STORE is on the mailbox of its operation's own folder, and the operations
        carried out are sent in order. */
    method Run(ops: seq<Op>, answers: seq<Answers>, ghost mailbox: map<int, string>)
      requires |ops| == |answers|
      modifies this
      ensures View() == DrainAll(old(View()), ops, answers)
      ensures old(Routed(View(), mailbox)) && AnswersTruthful(answers, mailbox) ==>
        && Routed(View(), mailbox)
        && sent == old(sent) + Deliveries(mailbox, Carried(old(View()), ops, answers))
    {
      if Routed(View(), mailbox) && AnswersTruthful(answers, mailbox) {
        RoutedRight(View(), ops, answers, mailbox);
        SentIsCarried(View(), ops, answers, mailbox);
      }
      for i := 0 to |ops|
        invariant View() == DrainAll(old(View()), ops[..i], answers[..i])
      {
        Handle(ops[i], answers[i]);
        assert ops[..i + 1][..i] == ops[..i] && answers[..i + 1][..i] == answers[..i];
      }
      assert ops[..|ops|] == ops && answers[..|answers|] == answers;
    }
  }

  datatype Pending = Pending(folder: int, uid: int, part: string)

  datatype Fetched = Fetched(mailbox: string, row: Pending)

  /** The downloader's pass over the pending rows, on a fresh connection: every body part
      it asks for is asked of the row's own mailbox, and a row is skipped only when its
      folder is unknown or cannot be selected. */
  method DownloadOnce(pending: seq<Pending>, folders: seq<Folder>, replies: seq<SelectReply>)
    returns (fetched: seq<Fetched>)
    requires |replies| == |pending|
    ensures forall i :: 0 <= i < |fetched| ==>
      fetched[i].row in pending && fetched[i].mailbox == NameOf(folders, fetched[i].row.folder) != ""
    ensures (forall i :: 0 <= i < |replies| ==> replies[i].Selected?) ==>
      forall i :: 0 <= i < |pending| && NameOf(folders, pending[i].folder) != "" ==>
        Fetched(NameOf(folders, pending[i].folder), pending[i]) in fetched
  {
    var currentFolder, selected := "", None;
    fetched := [];
    for i := 0 to |pending|
      invariant Coherent(Selection(currentFolder, selected))
      invariant (forall j :: 0 <= j < i ==> replies[j].Selected?) && currentFolder != "" ==>
        selected == Some(currentFolder)
      invariant forall j :: 0 <= j < |fetched| ==>
        fetched[j].row in pending && fetched[j].mailbox == NameOf(folders, fetched[j].row.folder) != ""
      invariant (forall j :: 0 <= j < i ==> replies[j].Selected?) ==>
        forall j :: 0 <= j < i && NameOf(folders, pending[j].folder) != "" ==>
          Fetched(NameOf(folders, pending[j].folder), pending[j]) in fetched
    {
      var name := NameOf(folders, pending[i].folder);
      if name != "" {
        var (selection, ready) := Enter(Selection(currentFolder, selected), name, replies[i]);
        currentFolder, selected := selection.cached, selection.selected;
        if ready && selected.Some? {
          fetched := fetched + [Fetched(selected.value, pending[i])];
        }
      }
    }
  }
}
