/** CAgvXmlSetting on the map and the files it updates. */
module Settings {
  import opened Decimal
  import opened SettingsSpec

  class XmlSetting {
    var files: map<string, seq<Node>>
    var xmlFileName: string
    var content: map<string, string>

    ghost function View(): Store
      reads this
    {
      Store(files, xmlFileName, content)
    }

    constructor (files: map<string, seq<Node>>)
      ensures View() == Store(files, "", map[])
    {
      this.files := files;
      xmlFileName, content := "", map[];
    }

    /** A file that does not exist leaves the cache empty and is reported with -1. */
    method LoadContents(fileName: string) returns (r: int)
      requires Readable(NodesOf(files, fileName))
      modifies this`xmlFileName, this`content
      ensures View() == Load(old(View()), fileName)
      ensures r == if fileName in files then 0 else -1
    {
      content := map[];
      xmlFileName := fileName;
      if fileName !in files {
        return -1;
      }
      content := ReadCfgData(files[fileName]);
      return 0;
    }

    /** ReadCfgDataFromXml: inserting into a map does not replace what is there. */
    static method ReadCfgData(nodes: seq<Node>) returns (m: map<string, string>)
      requires Readable(nodes)
      ensures m == FirstValues(nodes)
    {
      m := map[];
      var k := 0;
      while k < |nodes|
        invariant 0 <= k <= |nodes| && m == FirstValues(nodes[..k])
      {
        assert nodes[..k + 1] == nodes[..k] + [nodes[k]];
        FirstOfAppended(nodes[..k], nodes[k]);
        if nodes[k].name !in m {
          m := m[nodes[k].name := nodes[k].value];
        }
        k := k + 1;
      }
      assert nodes[..k] == nodes;
    }

    /** WriteCfgDataToXml on the nodes of an existing file. */
    static method WriteCfgData(nodes: seq<Node>, entry: string, value: string) returns (r: seq<Node>)
      ensures r == Written(nodes, entry, value)
    {
      r := nodes;
      var cnt, k := 0, 0;
      while k < |nodes|
        invariant 0 <= k <= |nodes| == |r| && cnt >= 0
        invariant forall j :: 0 <= j < k ==> r[j] == if nodes[j].name == entry then Node(entry, value) else nodes[j]
        invariant forall j :: k <= j < |nodes| ==> r[j] == nodes[j]
        invariant cnt == 0 <==> forall j :: 0 <= j < k ==> nodes[j].name != entry
      {
        if nodes[k].name == entry {
          cnt := cnt + 1;
          r := r[k := Node(entry, value)];
        }
        k := k + 1;
      }
      SetAllAt(nodes, entry, value);
      assert cnt > 0 ==> r == SetAll(nodes, entry, value);
      if cnt == 0 {
        assert r == nodes;
        r := r + [Node(entry, value)];
      }
    }

    method GetSectionValue(section: string, def: string) returns (v: string)
      modifies this
      ensures (v, View()) == Get(old(View()), section, def)
    {
      if section !in content {
        SaveSectionValue(section, def);
        return def;
      }
      return content[section];
    }

    method GetSectionInt(section: string, def: int) returns (v: int)
      modifies this
      ensures (v, View()) == GetInt(old(View()), section, def)
    {
      var s := GetSectionValue(section, Print(def));
      return Parse(s);
    }

    method SaveSectionValue(section: string, value: string)
      modifies this
      ensures View() == Save(old(View()), section, value)
    {
      content := content - {section};
      content := content[section := value];
      assert content == old(content)[section := value];
      assert Written([], section, value) == [Node(section, value)];
      if xmlFileName !in files {
        files := files[xmlFileName := [Node(section, value)]];
      } else {
        var nodes := WriteCfgData(files[xmlFileName], section, value);
        files := files[xmlFileName := nodes];
      }
    }

    method SaveSectionInt(section: string, value: int)
      modifies this
      ensures View() == SaveInt(old(View()), section, value)
    {
      SaveSectionValue(section, Print(value));
    }
  }

  /** Setting replaces the nodes of the name where they are. */
  lemma {:induction false} SetAllAt(nodes: seq<Node>, name: string, value: string)
    ensures |SetAll(nodes, name, value)| == |nodes|
    ensures forall k :: 0 <= k < |nodes| ==>
              SetAll(nodes, name, value)[k] == if nodes[k].name == name then Node(name, value) else nodes[k]
    ensures Occurs(nodes, name) <==> exists k :: 0 <= k < |nodes| && nodes[k].name == name
  {
    if nodes != [] {
      SetAllAt(nodes[1..], name, value);
      var first := if nodes[0].name == name then Node(name, value) else nodes[0];
    }
  }

}
