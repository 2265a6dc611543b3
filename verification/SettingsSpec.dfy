/** The settings cache of utils/AgvXmlSetting.cpp over the XML nodes of utils/AgvXml.cpp. */
module SettingsSpec {
  import opened Decimal

  /** A child of the root node: its name and the text in it. */
  datatype Node = Node(name: string, value: string)

  /** The files that exist, the name of the one in use, and the cached contents. */
  datatype Store = Store(files: map<string, seq<Node>>, fileName: string, content: map<string, string>)

  function NodesOf(files: map<string, seq<Node>>, fileName: string): seq<Node>
  {
    if fileName in files then files[fileName] else []
  }

  /** The value of each name at its first occurrence. */
  function FirstValues(nodes: seq<Node>): map<string, string>
  {
    if nodes == [] then map[] else FirstValues(nodes[1..])[nodes[0].name := nodes[0].value]
  }

  function SetAll(nodes: seq<Node>, name: string, value: string): seq<Node>
  {
    if nodes == [] then []
    else [if nodes[0].name == name then Node(name, value) else nodes[0]] + SetAll(nodes[1..], name, value)
  }

  predicate Occurs(nodes: seq<Node>, name: string)
  {
    nodes != [] && (nodes[0].name == name || Occurs(nodes[1..], name))
  }

  /** WriteCfgDataToXml: every node of the name is set, and if there is none one is appended. */
  function Written(nodes: seq<Node>, name: string, value: string): seq<Node>
  {
    if Occurs(nodes, name) then SetAll(nodes, name, value) else nodes + [Node(name, value)]
  }

  /** A node without text has no string to read: loading such a file crashes. */
  predicate Readable(nodes: seq<Node>)
  {
    forall k :: 0 <= k < |nodes| ==> nodes[k].value != ""
  }

  // Operations ----------------------------------------------------------------------------------

  function Load(s: Store, fileName: string): Store
  {
    s.(fileName := fileName, content := FirstValues(NodesOf(s.files, fileName)))
  }

  function Save(s: Store, name: string, value: string): Store
  {
    s.(content := s.content[name := value],
       files := s.files[s.fileName := Written(NodesOf(s.files, s.fileName), name, value)])
  }

  /** A missing setting is saved with its default. */
  function Get(s: Store, name: string, def: string): (string, Store)
  {
    if name in s.content then (s.content[name], s) else (def, Save(s, name, def))
  }

  function GetInt(s: Store, name: string, def: int): (int, Store)
  {
    var (v, t) := Get(s, name, Print(def));
    (Parse(v), t)
  }

  function SaveInt(s: Store, name: string, value: int): Store
  {
    Save(s, name, Print(value))
  }

  datatype Op =
    | LoadOp(fileName: string)
    | GetOp(name: string, def: string)
    | SaveOp(name: string, value: string)
    | GetIntOp(name: string, intDef: int)
    | SaveIntOp(name: string, intValue: int)

  function Apply(s: Store, op: Op): Store
  {
    match op
    case LoadOp(f) => Load(s, f)
    case GetOp(n, d) => Get(s, n, d).1
    case SaveOp(n, v) => Save(s, n, v)
    case GetIntOp(n, d) => GetInt(s, n, d).1
    case SaveIntOp(n, v) => SaveInt(s, n, v)
  }

  function Run(s: Store, ops: seq<Op>): Store
  {
    if ops == [] then s else Apply(Run(s, ops[..|ops| - 1]), ops[|ops| - 1])
  }

  // Coherence -----------------------------------------------------------------------------------

  ghost predicate Coherent(s: Store)
  {
    s.content == FirstValues(NodesOf(s.files, s.fileName))
  }

  lemma {:induction false} OccursIffCached(nodes: seq<Node>, name: string)
    ensures Occurs(nodes, name) <==> name in FirstValues(nodes)
  {
    if nodes != [] {
      OccursIffCached(nodes[1..], name);
    }
  }

  lemma {:induction false} FirstOfSetAll(nodes: seq<Node>, name: string, value: string)
    ensures FirstValues(SetAll(nodes, name, value)) ==
              if Occurs(nodes, name) then FirstValues(nodes)[name := value] else FirstValues(nodes)
  {
    if nodes != [] {
      FirstOfSetAll(nodes[1..], name, value);
      var rest := SetAll(nodes, name, value)[1..];
      assert rest == SetAll(nodes[1..], name, value);
    }
  }

  lemma {:induction false} FirstOfAppended(nodes: seq<Node>, n: Node)
    ensures FirstValues(nodes + [n]) ==
              if n.name in FirstValues(nodes) then FirstValues(nodes) else FirstValues(nodes)[n.name := n.value]
  {
    if nodes == [] {
      assert ([] + [n])[1..] == [];
    } else {
      FirstOfAppended(nodes[1..], n);
      assert (nodes + [n])[1..] == nodes[1..] + [n];
    }
  }

  /** Writing through changes the first value of the one name, even with duplicate nodes. */
  lemma FirstOfWritten(nodes: seq<Node>, name: string, value: string)
    ensures FirstValues(Written(nodes, name, value)) == FirstValues(nodes)[name := value]
  {
    OccursIffCached(nodes, name);
    if Occurs(nodes, name) {
      FirstOfSetAll(nodes, name, value);
    } else {
      FirstOfAppended(nodes, Node(name, value));
    }
  }

  lemma SaveCoherent(s: Store, name: string, value: string)
    requires Coherent(s)
    ensures Coherent(Save(s, name, value))
  {
    FirstOfWritten(NodesOf(s.files, s.fileName), name, value);
  }

  lemma ApplyCoherent(s: Store, op: Op)
    requires Coherent(s)
    ensures Coherent(Apply(s, op))
  {
    match op
    case LoadOp(_) =>
    case GetOp(n, d) => SaveCoherent(s, n, d);
    case SaveOp(n, v) => SaveCoherent(s, n, v);
    case GetIntOp(n, d) => SaveCoherent(s, n, Print(d));
    case SaveIntOp(n, v) => SaveCoherent(s, n, Print(v));
  }

  /** After any loads, reads and saves the cache is what a fresh load of the file in use would
      give; so a reload changes nothing. */
  lemma {:induction false} AlwaysCoherent(s: Store, ops: seq<Op>)
    requires Coherent(s)
    ensures Coherent(Run(s, ops))
    ensures Load(Run(s, ops), Run(s, ops).fileName) == Run(s, ops)
  {
    if ops != [] {
      AlwaysCoherent(s, ops[..|ops| - 1]);
      ApplyCoherent(Run(s, ops[..|ops| - 1]), ops[|ops| - 1]);
    }
  }

  /** Operations that leave the value of a name alone. */
  predicate Leaves(op: Op, name: string)
  {
    match op
    case SaveOp(n, _) => n != name
    case SaveIntOp(n, _) => n != name
    case LoadOp(_) => true
    case GetOp(_, _) => true
    case GetIntOp(_, _) => true
  }

  /** The file in use is f, its cache coherent, and name has the given value in it. */
  ghost predicate Stored(s: Store, f: string, name: string, value: string)
  {
    var first := FirstValues(NodesOf(s.files, f));
    Coherent(s) && name in first && first[name] == value
  }

  lemma SaveStored(s: Store, f: string, name: string, value: string, other: string, v: string)
    requires Stored(s, f, name, value) && (s.fileName == f ==> other != name)
    ensures Stored(Save(s, other, v), f, name, value)
  {
    SaveCoherent(s, other, v);
    FirstOfWritten(NodesOf(s.files, s.fileName), other, v);
  }

  lemma ApplyStored(s: Store, f: string, name: string, value: string, op: Op)
    requires Stored(s, f, name, value) && Leaves(op, name)
    ensures Stored(Apply(s, op), f, name, value)
  {
    match op
    case LoadOp(_) =>
    case GetOp(n, d) => if n !in s.content { SaveStored(s, f, name, value, n, d); }
    case SaveOp(n, v) => SaveStored(s, f, name, value, n, v);
    case GetIntOp(n, d) => if n !in s.content { SaveStored(s, f, name, value, n, Print(d)); }
    case SaveIntOp(n, v) => SaveStored(s, f, name, value, n, Print(v));
  }

  lemma {:induction false} RunStored(s: Store, f: string, name: string, value: string, ops: seq<Op>)
    requires Stored(s, f, name, value) && forall k :: 0 <= k < |ops| ==> Leaves(ops[k], name)
    ensures Stored(Run(s, ops), f, name, value)
  {
    if ops != [] {
      var most := ops[..|ops| - 1];
      RunStored(s, f, name, value, most);
      ApplyStored(Run(s, most), f, name, value, ops[|ops| - 1]);
    }
  }

  /** A missing integer setting reads as its default now, and as the same value again whenever its
      file is in use later, after any operations that do not save that name: other defaults given
      in those reads do not count. */
  lemma IntDefaultSticks(s: Store, name: string, def: int, ops: seq<Op>, later: int)
    requires Coherent(s) && name !in s.content
    requires forall k :: 0 <= k < |ops| ==> Leaves(ops[k], name)
    ensures GetInt(s, name, def).0 == def
    ensures var t := Run(GetInt(s, name, def).1, ops);
            && GetInt(Load(t, s.fileName), name, later).0 == def
            && (t.fileName == s.fileName ==> GetInt(t, name, later).0 == def)
  {
    ParsePrint(def);
    var u := Save(s, name, Print(def));
    SaveCoherent(s, name, Print(def));
    RunStored(u, s.fileName, name, Print(def), ops);
  }

  /** A saved integer is read back, at once and after a reload; other settings keep their value. */
  lemma SavedIntReadsBack(s: Store, name: string, value: int, def: int, other: string)
    requires Coherent(s)
    ensures var t := SaveInt(s, name, value);
            && GetInt(t, name, def).0 == value
            && GetInt(Load(t, t.fileName), name, def).0 == value
            && (other != name ==> (other in t.content <==> other in s.content)
                                  && (other in s.content ==> t.content[other] == s.content[other]))
  {
    ParsePrint(value);
    SaveCoherent(s, name, Print(value));
  }

  // Empty values --------------------------------------------------------------------------------

  lemma {:induction false} SetAllReadable(nodes: seq<Node>, name: string, value: string)
    requires Readable(nodes)
    ensures Readable(SetAll(nodes, name, value)) <==> value != "" || !Occurs(nodes, name)
  {
    if nodes != [] {
      SetAllReadable(nodes[1..], name, value);
      var rest := SetAll(nodes[1..], name, value);
      assert SetAll(nodes, name, value)[1..] == rest;
    }
  }

  /** A save leaves a file that can be loaded again if and only if the value is not empty. */
  lemma SaveStaysReadable(s: Store, name: string, value: string)
    requires Readable(NodesOf(s.files, s.fileName))
    ensures var t := Save(s, name, value);
            Readable(NodesOf(t.files, t.fileName)) <==> value != ""
  {
    var nodes := NodesOf(s.files, s.fileName);
    if Occurs(nodes, name) {
      SetAllReadable(nodes, name, value);
    } else {
      assert (nodes + [Node(name, value)])[|nodes|].value == value;
    }
  }

  /** Every file can be loaded. */
  ghost predicate AllReadable(s: Store)
  {
    forall f :: Readable(NodesOf(s.files, f))
  }

  /** The operation carries no empty value. */
  predicate NoEmptyValue(op: Op)
  {
    match op
    case SaveOp(_, v) => v != ""
    case GetOp(_, d) => d != ""
    case LoadOp(_) => true
    case GetIntOp(_, _) => true
    case SaveIntOp(_, _) => true
  }

  lemma SaveAllReadable(s: Store, name: string, value: string)
    requires AllReadable(s) && value != ""
    ensures AllReadable(Save(s, name, value))
  {
    SaveStaysReadable(s, name, value);
    forall f: string
      ensures Readable(NodesOf(Save(s, name, value).files, f))
    {
      assert Readable(NodesOf(s.files, f));
    }
  }

  /** If no operation carries an empty value every file can be loaded in every state of the run, so
      no load in it crashes. */
  lemma {:induction false} StaysReadable(s: Store, ops: seq<Op>)
    requires AllReadable(s) && forall k :: 0 <= k < |ops| ==> NoEmptyValue(ops[k])
    ensures forall n :: 0 <= n <= |ops| ==> AllReadable(Run(s, ops[..n]))
  {
    if ops == [] {
      assert ops[..0] == [];
    } else {
      var most, op := ops[..|ops| - 1], ops[|ops| - 1];
      StaysReadable(s, most);
      assert most[..|most|] == most && ops[..|ops|] == ops;
      assert forall n :: 0 <= n <= |most| ==> ops[..n] == most[..n];
      ApplyReadable(Run(s, most), op);
    }
  }

  lemma ApplyReadable(s: Store, op: Op)
    requires AllReadable(s) && NoEmptyValue(op)
    ensures AllReadable(Apply(s, op))
  {
    match op
    case LoadOp(_) =>
    case GetOp(n, d) => SaveAllReadable(s, n, d);
    case SaveOp(n, v) => SaveAllReadable(s, n, v);
    case GetIntOp(n, d) => SaveAllReadable(s, n, Print(d));
    case SaveIntOp(n, v) => SaveAllReadable(s, n, Print(v));
  }
}
