/**
 * The folder/file tree of the TreeView component: the node record, the
 * copy-on-write transforms over a forest of nodes, the search by key, the
 * file-icon table, the node lists built from fetched records, and the
 * component state that a click on a node changes.
 */
module TreeView {
  import opened Wrappers
  import opened Text

  /** `children?: ITreeNode[]`: either undefined or a (possibly empty) list. */
  datatype Children = Absent | Present(nodes: seq<TreeNode>)

  /** `ITreeNode`. */
  datatype TreeNode = TreeNode(
    key: string,
    caption: string,
    icon: Option<string>,
    url: Option<string>,
    isFolder: bool,
    children: Children,
    isExpanded: Option<bool>,
    serverRelativeUrl: Option<string>)

  /** `node.isExpanded` read as a condition (undefined counts as false). */
  predicate Expanded(n: TreeNode) {
    n.isExpanded == Some(true)
  }

  /** The two nodes agree on every field other than `children` and `isExpanded`. */
  predicate SameFields(a: TreeNode, b: TreeNode) {
    && a.key == b.key && a.caption == b.caption && a.icon == b.icon && a.url == b.url
    && a.isFolder == b.isFolder && a.serverRelativeUrl == b.serverRelativeUrl
  }

  /** The two children lists are both undefined, or both defined with the same length. */
  predicate SameShape(a: Children, b: Children) {
    a.Present? == b.Present? && (a.Present? ==> |a.nodes| == |b.nodes|)
  }

  // ---------------------------------------------------------------------------
  // Pre-order view of a forest (the order in which the search visits nodes)
  // ---------------------------------------------------------------------------

  function Preorder(nodes: seq<TreeNode>): seq<TreeNode>
    decreases nodes
  {
    if nodes == [] then [] else PreorderOf(nodes[0]) + Preorder(nodes[1..])
  }

  function PreorderOf(n: TreeNode): seq<TreeNode>
    decreases n
  {
    [n] + (if n.children.Present? then Preorder(n.children.nodes) else [])
  }

  /** Some node anywhere in the forest carries `key`. */
  predicate HasKey(nodes: seq<TreeNode>, key: string) {
    exists n :: n in Preorder(nodes) && n.key == key
  }

  /** Every node of the forest that carries `key` has `isExpanded` defined. */
  predicate ExpansionDefined(nodes: seq<TreeNode>, key: string) {
    forall n :: n in Preorder(nodes) && n.key == key ==> n.isExpanded.Some?
  }

  /** The first element of `s` with the given key: the reference for the tree search. */
  function FirstWithKey(s: seq<TreeNode>, key: string): (r: Option<TreeNode>)
    ensures r.None? <==> forall i :: 0 <= i < |s| ==> s[i].key != key
    ensures r.Some? ==> exists i :: 0 <= i < |s| && s[i] == r.value && r.value.key == key
                                    && forall j :: 0 <= j < i ==> s[j].key != key
  {
    if s == [] then None
    else if s[0].key == key then Some(s[0])
    else
      var r := FirstWithKey(s[1..], key);
      assert forall i :: 1 <= i < |s| ==> s[i] == s[1..][i - 1];
      r
  }

  lemma {:induction false} FirstWithKeyAppend(a: seq<TreeNode>, b: seq<TreeNode>, key: string)
    ensures FirstWithKey(a + b, key)
         == if FirstWithKey(a, key).Some? then FirstWithKey(a, key) else FirstWithKey(b, key)
  {
    if a != [] {
      assert (a + b)[1..] == a[1..] + b;
      FirstWithKeyAppend(a[1..], b, key);
    } else {
      assert a + b == b;
    }
  }

  // ---------------------------------------------------------------------------
  // toggleNodeExpansion
  // ---------------------------------------------------------------------------

  /** `toggleNodeExpansion(nodes, key)`. */
  function ToggleNodeExpansion(nodes: seq<TreeNode>, key: string): (r: seq<TreeNode>)
    decreases nodes
    ensures |r| == |nodes|
    ensures forall i :: 0 <= i < |nodes| ==> SameFields(r[i], nodes[i])
    ensures forall i :: 0 <= i < |nodes| && nodes[i].key == key ==>
              Expanded(r[i]) == !Expanded(nodes[i]) && r[i].children == nodes[i].children
    ensures forall i :: 0 <= i < |nodes| && nodes[i].key != key ==>
              r[i].isExpanded == nodes[i].isExpanded && SameShape(r[i].children, nodes[i].children)
  {
    if nodes == [] then []
    else [ToggleNode(nodes[0], key)] + ToggleNodeExpansion(nodes[1..], key)
  }

  /** The callback that `toggleNodeExpansion` maps over one list. */
  function ToggleNode(n: TreeNode, key: string): (r: TreeNode)
    decreases n
    ensures SameFields(r, n)
    ensures n.key == key ==> r.isExpanded == Some(!Expanded(n)) && r.children == n.children
    ensures n.key != key ==> r.isExpanded == n.isExpanded && SameShape(r.children, n.children)
  {
    if n.key == key then n.(isExpanded := Some(!Expanded(n)))
    else if n.children.Present? then n.(children := Present(ToggleNodeExpansion(n.children.nodes, key)))
    else n
  }

  // ---------------------------------------------------------------------------
  // addChildrenToNode
  // ---------------------------------------------------------------------------

  /** `addChildrenToNode(nodes, parentKey, children)`. */
  function AddChildrenToNode(nodes: seq<TreeNode>, parentKey: string, children: seq<TreeNode>): (r: seq<TreeNode>)
    decreases nodes
    ensures |r| == |nodes|
    ensures forall i :: 0 <= i < |nodes| ==> SameFields(r[i], nodes[i]) && r[i].isExpanded == nodes[i].isExpanded
    ensures forall i :: 0 <= i < |nodes| && nodes[i].key == parentKey ==> r[i].children == Present(children)
    ensures forall i :: 0 <= i < |nodes| && nodes[i].key != parentKey ==> SameShape(r[i].children, nodes[i].children)
  {
    if nodes == [] then []
    else [AddChildrenTo(nodes[0], parentKey, children)] + AddChildrenToNode(nodes[1..], parentKey, children)
  }

  /** The callback that `addChildrenToNode` maps over one list. */
  function AddChildrenTo(n: TreeNode, parentKey: string, children: seq<TreeNode>): (r: TreeNode)
    decreases n
    ensures SameFields(r, n) && r.isExpanded == n.isExpanded
    ensures n.key == parentKey ==> r.children == Present(children)
    ensures n.key != parentKey ==> SameShape(r.children, n.children)
  {
    if n.key == parentKey then n.(children := Present(children))
    else if n.children.Present? then n.(children := Present(AddChildrenToNode(n.children.nodes, parentKey, children)))
    else n
  }

  // ---------------------------------------------------------------------------
  // findNodeInTree
  // ---------------------------------------------------------------------------

  /** `findNodeInTree(nodes, key)`; `None` is `undefined`. */
  function FindNodeInTree(nodes: seq<TreeNode>, key: string): (r: Option<TreeNode>)
    decreases nodes
    ensures r.Some? ==> r.value.key == key
  {
    if nodes == [] then None
    else match FindInNode(nodes[0], key)
      case Some(found) => Some(found)
      case None => FindNodeInTree(nodes[1..], key)
  }

  /** One iteration of the search loop: the node itself, then its subtree. */
  function FindInNode(n: TreeNode, key: string): (r: Option<TreeNode>)
    decreases n
    ensures r.Some? ==> r.value.key == key
  {
    if n.key == key then Some(n)
    else if n.children.Present? then FindNodeInTree(n.children.nodes, key)
    else None
  }

  /** The search returns the first node with the key in pre-order. */
  lemma {:induction false} FindIsFirstInPreorder(nodes: seq<TreeNode>, key: string)
    decreases nodes
    ensures FindNodeInTree(nodes, key) == FirstWithKey(Preorder(nodes), key)
  {
    if nodes != [] {
      FindInNodeIsFirstInPreorder(nodes[0], key);
      FindIsFirstInPreorder(nodes[1..], key);
      FirstWithKeyAppend(PreorderOf(nodes[0]), Preorder(nodes[1..]), key);
    }
  }

  lemma {:induction false} FindInNodeIsFirstInPreorder(n: TreeNode, key: string)
    decreases n
    ensures FindInNode(n, key) == FirstWithKey(PreorderOf(n), key)
  {
    var rest := if n.children.Present? then Preorder(n.children.nodes) else [];
    FirstWithKeyAppend([n], rest, key);
    if n.key != key && n.children.Present? {
      FindIsFirstInPreorder(n.children.nodes, key);
    }
  }

  /** The search finds nothing exactly when no node in the forest has the key. */
  lemma FindNoneIffAbsent(nodes: seq<TreeNode>, key: string)
    ensures FindNodeInTree(nodes, key).None? <==> !HasKey(nodes, key)
  {
    FindIsFirstInPreorder(nodes, key);
    var s := Preorder(nodes);
    if HasKey(nodes, key) {
      var n :| n in s && n.key == key;
      var i :| 0 <= i < |s| && s[i] == n;
    }
  }

  // ---------------------------------------------------------------------------
  // Laws of the transforms
  // ---------------------------------------------------------------------------

  lemma PreorderSplit(nodes: seq<TreeNode>)
    requires nodes != []
    ensures Preorder(nodes) == PreorderOf(nodes[0]) + Preorder(nodes[1..])
    ensures forall m :: m in PreorderOf(nodes[0]) ==> m in Preorder(nodes)
    ensures forall m :: m in Preorder(nodes[1..]) ==> m in Preorder(nodes)
  {
  }

  lemma ChildrenInPreorder(n: TreeNode)
    requires n.children.Present?
    ensures n in PreorderOf(n)
    ensures forall m :: m in Preorder(n.children.nodes) ==> m in PreorderOf(n)
  {
  }

  /** A key present nowhere: toggling returns an equal forest. */
  lemma {:induction false} ToggleAbsentKey(nodes: seq<TreeNode>, key: string)
    decreases nodes
    requires !HasKey(nodes, key)
    ensures ToggleNodeExpansion(nodes, key) == nodes
  {
    if nodes != [] {
      PreorderSplit(nodes);
      ToggleNodeAbsentKey(nodes[0], key);
      ToggleAbsentKey(nodes[1..], key);
    }
  }

  lemma {:induction false} ToggleNodeAbsentKey(n: TreeNode, key: string)
    decreases n
    requires forall m :: m in PreorderOf(n) ==> m.key != key
    ensures ToggleNode(n, key) == n
  {
    assert n in PreorderOf(n);
    if n.children.Present? {
      ChildrenInPreorder(n);
      ToggleAbsentKey(n.children.nodes, key);
    }
  }

  /** A key present nowhere: attaching children returns an equal forest. */
  lemma {:induction false} AddChildrenAbsentKey(nodes: seq<TreeNode>, key: string, children: seq<TreeNode>)
    decreases nodes
    requires !HasKey(nodes, key)
    ensures AddChildrenToNode(nodes, key, children) == nodes
  {
    if nodes != [] {
      PreorderSplit(nodes);
      AddChildrenToAbsentKey(nodes[0], key, children);
      AddChildrenAbsentKey(nodes[1..], key, children);
    }
  }

  lemma {:induction false} AddChildrenToAbsentKey(n: TreeNode, key: string, children: seq<TreeNode>)
    decreases n
    requires forall m :: m in PreorderOf(n) ==> m.key != key
    ensures AddChildrenTo(n, key, children) == n
  {
    assert n in PreorderOf(n);
    if n.children.Present? {
      ChildrenInPreorder(n);
      AddChildrenAbsentKey(n.children.nodes, key, children);
    }
  }

  /** Toggling twice gives back the forest when every node with the key has `isExpanded` defined. */
  lemma {:induction false} ToggleTwiceRestores(nodes: seq<TreeNode>, key: string)
    decreases nodes
    requires ExpansionDefined(nodes, key)
    ensures ToggleNodeExpansion(ToggleNodeExpansion(nodes, key), key) == nodes
  {
    if nodes != [] {
      PreorderSplit(nodes);
      ToggleNodeTwiceRestores(nodes[0], key);
      ToggleTwiceRestores(nodes[1..], key);
    }
  }

  lemma {:induction false} ToggleNodeTwiceRestores(n: TreeNode, key: string)
    decreases n
    requires forall m :: m in PreorderOf(n) && m.key == key ==> m.isExpanded.Some?
    ensures ToggleNode(ToggleNode(n, key), key) == n
  {
    assert n in PreorderOf(n);
    if n.key != key && n.children.Present? {
      ChildrenInPreorder(n);
      ToggleTwiceRestores(n.children.nodes, key);
      assert ToggleNode(n, key).children.nodes == ToggleNodeExpansion(n.children.nodes, key);
    } else if n.key == key {
      if n.isExpanded.value { assert Expanded(n); } else { assert !Expanded(n); }
    }
  }

  /** The forest as the renderer reads it: every `isExpanded` replaced by its truth value. */
  function ExpansionView(nodes: seq<TreeNode>): (r: seq<TreeNode>)
    decreases nodes
  {
    if nodes == [] then [] else [ExpansionViewOf(nodes[0])] + ExpansionView(nodes[1..])
  }

  function ExpansionViewOf(n: TreeNode): (r: TreeNode)
    decreases n
  {
    var kids := if n.children.Present? then Present(ExpansionView(n.children.nodes)) else Absent;
    n.(isExpanded := Some(Expanded(n)), children := kids)
  }

  /**
   * Toggling the same key twice restores, on every node, whether it is
   * expanded, and leaves every children list as it was.
   */
  lemma {:induction false} ToggleTwiceRestoresView(nodes: seq<TreeNode>, key: string)
    decreases nodes
    ensures ExpansionView(ToggleNodeExpansion(ToggleNodeExpansion(nodes, key), key)) == ExpansionView(nodes)
  {
    if nodes != [] {
      ToggleNodeTwiceRestoresView(nodes[0], key);
      ToggleTwiceRestoresView(nodes[1..], key);
    }
  }

  lemma {:induction false} ToggleNodeTwiceRestoresView(n: TreeNode, key: string)
    decreases n
    ensures ExpansionViewOf(ToggleNode(ToggleNode(n, key), key)) == ExpansionViewOf(n)
  {
    if n.key != key && n.children.Present? {
      ToggleTwiceRestoresView(n.children.nodes, key);
    }
  }

  function FlipExpansion(r: Option<TreeNode>): Option<TreeNode> {
    if r.Some? then Some(r.value.(isExpanded := Some(!Expanded(r.value)))) else None
  }

  function SetChildren(r: Option<TreeNode>, children: seq<TreeNode>): Option<TreeNode> {
    if r.Some? then Some(r.value.(children := Present(children))) else None
  }

  /** After a toggle, the search finds the same node as before, with `isExpanded` flipped. */
  lemma {:induction false} FindAfterToggle(nodes: seq<TreeNode>, key: string)
    decreases nodes
    ensures FindNodeInTree(ToggleNodeExpansion(nodes, key), key) == FlipExpansion(FindNodeInTree(nodes, key))
  {
    if nodes != [] {
      FindInNodeAfterToggle(nodes[0], key);
      FindAfterToggle(nodes[1..], key);
    }
  }

  lemma {:induction false} FindInNodeAfterToggle(n: TreeNode, key: string)
    decreases n
    ensures FindInNode(ToggleNode(n, key), key) == FlipExpansion(FindInNode(n, key))
  {
    if n.key != key && n.children.Present? {
      FindAfterToggle(n.children.nodes, key);
    }
  }

  /** After attaching children, the search finds the same node as before, with those children. */
  lemma {:induction false} FindAfterAddChildren(nodes: seq<TreeNode>, key: string, children: seq<TreeNode>)
    decreases nodes
    ensures FindNodeInTree(AddChildrenToNode(nodes, key, children), key)
         == SetChildren(FindNodeInTree(nodes, key), children)
  {
    if nodes != [] {
      FindInNodeAfterAddChildren(nodes[0], key, children);
      FindAfterAddChildren(nodes[1..], key, children);
    }
  }

  lemma {:induction false} FindInNodeAfterAddChildren(n: TreeNode, key: string, children: seq<TreeNode>)
    decreases n
    ensures FindInNode(AddChildrenTo(n, key, children), key) == SetChildren(FindInNode(n, key), children)
  {
    if n.key != key && n.children.Present? {
      FindAfterAddChildren(n.children.nodes, key, children);
    }
  }

  /** Toggling keeps the pre-order sequence of keys: no node is added, removed or moved. */
  lemma {:induction false} ToggleKeepsPreorderKeys(nodes: seq<TreeNode>, key: string)
    decreases nodes
    ensures |Preorder(ToggleNodeExpansion(nodes, key))| == |Preorder(nodes)|
    ensures forall i :: 0 <= i < |Preorder(nodes)| ==>
              Preorder(ToggleNodeExpansion(nodes, key))[i].key == Preorder(nodes)[i].key
  {
    if nodes != [] {
      ToggleNodeKeepsPreorderKeys(nodes[0], key);
      ToggleKeepsPreorderKeys(nodes[1..], key);
      var a: seq<TreeNode>, b: seq<TreeNode> := PreorderOf(nodes[0]), Preorder(nodes[1..]);
      var a': seq<TreeNode>, b': seq<TreeNode> := PreorderOf(ToggleNode(nodes[0], key)), Preorder(ToggleNodeExpansion(nodes[1..], key));
      assert ToggleNodeExpansion(nodes, key)[1..] == ToggleNodeExpansion(nodes[1..], key);
      forall i | 0 <= i < |a| + |b| ensures (a' + b')[i].key == (a + b)[i].key {
        if i >= |a| { assert (a' + b')[i] == b'[i - |a|] && (a + b)[i] == b[i - |a|]; }
      }
    }
  }

  lemma {:induction false} ToggleNodeKeepsPreorderKeys(n: TreeNode, key: string)
    decreases n
    ensures |PreorderOf(ToggleNode(n, key))| == |PreorderOf(n)|
    ensures forall i :: 0 <= i < |PreorderOf(n)| ==> PreorderOf(ToggleNode(n, key))[i].key == PreorderOf(n)[i].key
  {
    if n.key != key && n.children.Present? {
      ToggleKeepsPreorderKeys(n.children.nodes, key);
      var t := ToggleNode(n, key);
      forall i | 0 <= i < |PreorderOf(n)| ensures PreorderOf(t)[i].key == PreorderOf(n)[i].key {
        if i > 0 {
          assert PreorderOf(t)[i] == Preorder(t.children.nodes)[i - 1];
          assert PreorderOf(n)[i] == Preorder(n.children.nodes)[i - 1];
        }
      }
    }
  }

  // ---------------------------------------------------------------------------
  // What the transforms change. Both stop at the first node with the key on
  // every path from a root: its subtree is not looked into.
  // ---------------------------------------------------------------------------

  /** The nodes with the key that no node with the key lies above, in pre-order. */
  function Reached(nodes: seq<TreeNode>, key: string): seq<TreeNode>
    decreases nodes
  {
    if nodes == [] then [] else ReachedIn(nodes[0], key) + Reached(nodes[1..], key)
  }

  function ReachedIn(n: TreeNode, key: string): seq<TreeNode>
    decreases n
  {
    if n.key == key then [n]
    else if n.children.Present? then Reached(n.children.nodes, key)
    else []
  }

  /** The forest with `isExpanded` set to undefined on every reached node. */
  function ForgetExpansion(nodes: seq<TreeNode>, key: string): seq<TreeNode>
    decreases nodes
  {
    if nodes == [] then [] else [ForgetExpansionOf(nodes[0], key)] + ForgetExpansion(nodes[1..], key)
  }

  function ForgetExpansionOf(n: TreeNode, key: string): TreeNode
    decreases n
  {
    if n.key == key then n.(isExpanded := None)
    else if n.children.Present? then n.(children := Present(ForgetExpansion(n.children.nodes, key)))
    else n
  }

  /** The forest with the children list of every reached node set to undefined. */
  function ForgetChildren(nodes: seq<TreeNode>, key: string): seq<TreeNode>
    decreases nodes
  {
    if nodes == [] then [] else [ForgetChildrenOf(nodes[0], key)] + ForgetChildren(nodes[1..], key)
  }

  function ForgetChildrenOf(n: TreeNode, key: string): TreeNode
    decreases n
  {
    if n.key == key then n.(children := Absent)
    else if n.children.Present? then n.(children := Present(ForgetChildren(n.children.nodes, key)))
    else n
  }

  function Flipped(s: seq<TreeNode>): (r: seq<TreeNode>)
    ensures |r| == |s|
    ensures forall i :: 0 <= i < |s| ==> r[i] == s[i].(isExpanded := Some(!Expanded(s[i])))
  {
    seq(|s|, i requires 0 <= i < |s| => s[i].(isExpanded := Some(!Expanded(s[i]))))
  }

  function WithChildren(s: seq<TreeNode>, children: seq<TreeNode>): (r: seq<TreeNode>)
    ensures |r| == |s|
    ensures forall i :: 0 <= i < |s| ==> r[i] == s[i].(children := Present(children))
  {
    seq(|s|, i requires 0 <= i < |s| => s[i].(children := Present(children)))
  }

  lemma FlippedAppend(a: seq<TreeNode>, b: seq<TreeNode>)
    ensures Flipped(a + b) == Flipped(a) + Flipped(b)
  {
    assert forall i :: 0 <= i < |b| ==> (a + b)[|a| + i] == b[i];
  }

  lemma WithChildrenAppend(a: seq<TreeNode>, b: seq<TreeNode>, children: seq<TreeNode>)
    ensures WithChildren(a + b, children) == WithChildren(a, children) + WithChildren(b, children)
  {
    assert forall i :: 0 <= i < |b| ==> (a + b)[|a| + i] == b[i];
  }

  /** A toggle changes nothing but the expansion of the reached nodes. */
  lemma {:induction false} ToggleChangesOnlyReached(nodes: seq<TreeNode>, key: string)
    decreases nodes
    ensures ForgetExpansion(ToggleNodeExpansion(nodes, key), key) == ForgetExpansion(nodes, key)
  {
    if nodes != [] {
      ToggleNodeChangesOnlyReached(nodes[0], key);
      ToggleChangesOnlyReached(nodes[1..], key);
    }
  }

  lemma {:induction false} ToggleNodeChangesOnlyReached(n: TreeNode, key: string)
    decreases n
    ensures ForgetExpansionOf(ToggleNode(n, key), key) == ForgetExpansionOf(n, key)
  {
    if n.key != key && n.children.Present? {
      ToggleChangesOnlyReached(n.children.nodes, key);
    }
  }

  /** Every reached node is flipped, and the reached nodes stay the same ones, in the same order. */
  lemma {:induction false} ToggleFlipsReached(nodes: seq<TreeNode>, key: string)
    decreases nodes
    ensures Reached(ToggleNodeExpansion(nodes, key), key) == Flipped(Reached(nodes, key))
  {
    if nodes != [] {
      var t := ToggleNodeExpansion(nodes, key);
      assert t[0] == ToggleNode(nodes[0], key) && t[1..] == ToggleNodeExpansion(nodes[1..], key);
      ToggleNodeFlipsReached(nodes[0], key);
      ToggleFlipsReached(nodes[1..], key);
      FlippedAppend(ReachedIn(nodes[0], key), Reached(nodes[1..], key));
    }
  }

  lemma {:induction false} ToggleNodeFlipsReached(n: TreeNode, key: string)
    decreases n
    ensures ReachedIn(ToggleNode(n, key), key) == Flipped(ReachedIn(n, key))
  {
    if n.key != key && n.children.Present? {
      ToggleFlipsReached(n.children.nodes, key);
    }
  }

  /** Attaching changes nothing but the children lists of the reached nodes. */
  lemma {:induction false} AddChildrenChangesOnlyReached(nodes: seq<TreeNode>, key: string, children: seq<TreeNode>)
    decreases nodes
    ensures ForgetChildren(AddChildrenToNode(nodes, key, children), key) == ForgetChildren(nodes, key)
  {
    if nodes != [] {
      AddChildrenToChangesOnlyReached(nodes[0], key, children);
      AddChildrenChangesOnlyReached(nodes[1..], key, children);
    }
  }

  lemma {:induction false} AddChildrenToChangesOnlyReached(n: TreeNode, key: string, children: seq<TreeNode>)
    decreases n
    ensures ForgetChildrenOf(AddChildrenTo(n, key, children), key) == ForgetChildrenOf(n, key)
  {
    if n.key != key && n.children.Present? {
      AddChildrenChangesOnlyReached(n.children.nodes, key, children);
    }
  }

  /** Every reached node gets exactly the new children, and the reached nodes stay the same ones, in order. */
  lemma {:induction false} AddChildrenSetsReached(nodes: seq<TreeNode>, key: string, children: seq<TreeNode>)
    decreases nodes
    ensures Reached(AddChildrenToNode(nodes, key, children), key) == WithChildren(Reached(nodes, key), children)
  {
    if nodes != [] {
      var t := AddChildrenToNode(nodes, key, children);
      assert t[0] == AddChildrenTo(nodes[0], key, children) && t[1..] == AddChildrenToNode(nodes[1..], key, children);
      AddChildrenToSetsReached(nodes[0], key, children);
      AddChildrenSetsReached(nodes[1..], key, children);
      WithChildrenAppend(ReachedIn(nodes[0], key), Reached(nodes[1..], key), children);
    }
  }

  lemma {:induction false} AddChildrenToSetsReached(n: TreeNode, key: string, children: seq<TreeNode>)
    decreases n
    ensures ReachedIn(AddChildrenTo(n, key, children), key) == WithChildren(ReachedIn(n, key), children)
  {
    if n.key != key && n.children.Present? {
      AddChildrenSetsReached(n.children.nodes, key, children);
    }
  }

  // ---------------------------------------------------------------------------
  // getFileIcon
  // ---------------------------------------------------------------------------

  /** `fileName.split('.').pop()?.toLowerCase()`. */
  function Extension(fileName: string): string {
    ToLower(AfterLast(fileName, '.'))
  }

  const FileIcons: set<string> :=
    {"WordDocument", "ExcelDocument", "PowerPointDocument", "PDF", "Photo2", "ZipFolder", "TextDocument", "Document"}

  /** The extensions with an icon of their own. */
  const IconExtensions: set<string> :=
    {"doc", "docx", "xls", "xlsx", "ppt", "pptx", "pdf", "jpg", "jpeg", "png", "gif", "zip", "txt"}

  /** The `switch` of `getFileIcon` on the extension. */
  function IconForExtension(extension: string): (icon: string)
    ensures icon in FileIcons
    ensures icon == "WordDocument" <==> extension in {"doc", "docx"}
    ensures icon == "ExcelDocument" <==> extension in {"xls", "xlsx"}
    ensures icon == "PowerPointDocument" <==> extension in {"ppt", "pptx"}
    ensures icon == "PDF" <==> extension == "pdf"
    ensures icon == "Photo2" <==> extension in {"jpg", "jpeg", "png", "gif"}
    ensures icon == "ZipFolder" <==> extension == "zip"
    ensures icon == "TextDocument" <==> extension == "txt"
  {
    match extension
    case "docx" | "doc" => "WordDocument"
    case "xlsx" | "xls" => "ExcelDocument"
    case "pptx" | "ppt" => "PowerPointDocument"
    case "pdf" => "PDF"
    case "jpg" | "jpeg" | "png" | "gif" => "Photo2"
    case "zip" => "ZipFolder"
    case "txt" => "TextDocument"
    case _ => "Document"
  }

  /** Every extension outside the table falls back to `Document`, and none inside it does. */
  lemma DocumentIsTheFallback(extension: string)
    ensures IconForExtension(extension) == "Document" <==> extension !in IconExtensions
  {
  }

  /** `getFileIcon(fileName)`: the icon of the lower-cased text after the last dot. */
  function GetFileIcon(fileName: string): string {
    IconForExtension(Extension(fileName))
  }

  /** The icon depends on the file name only up to letter case. */
  lemma GetFileIconIgnoresCase(fileName: string)
    ensures GetFileIcon(ToLower(fileName)) == GetFileIcon(fileName)
  {
    LowerAfterLast(fileName, '.');
    ToLowerIdempotent(AfterLast(fileName, '.'));
    assert Extension(ToLower(fileName)) == Extension(fileName);
  }

  /** The extension is the text after the last dot, so earlier dots do not matter. */
  lemma GetFileIconUsesLastDot(stem: string, ext: string)
    requires '.' !in ext
    ensures GetFileIcon(stem + "." + ext) == GetFileIcon(ext)
  {
    AfterLastOfSuffix(stem, ext, '.');
    AfterLastWithoutSeparator(ext, '.');
    assert stem + "." + ext == stem + ['.'] + ext;
    assert Extension(stem + "." + ext) == Extension(ext);
  }

  // ---------------------------------------------------------------------------
  // Node lists built from fetched records
  // ---------------------------------------------------------------------------

  /** One element of `pnp.sp.web.lists ... .get()`. */
  datatype ListRecord = ListRecord(title: string, id: string, baseTemplate: int, hidden: bool, rootFolderUrl: string)

  /** One element of `folderContents.Folders` or `folderContents.Files`. */
  datatype ItemRecord = ItemRecord(uniqueId: string, name: string, serverRelativeUrl: string)

  /** The result of `getFolderByServerRelativeUrl(...).expand("Folders,Files").get()`. */
  datatype FolderContents = FolderContents(folders: seq<ItemRecord>, files: seq<ItemRecord>)

  predicate IsDocumentLibrary(l: ListRecord) {
    l.baseTemplate == 101 && !l.hidden
  }

  /** A collapsed folder node with an empty, defined children list. */
  predicate CollapsedEmptyFolder(n: TreeNode) {
    n.isFolder && n.isExpanded == Some(false) && n.children == Present([])
  }

  function LibraryNode(l: ListRecord): TreeNode {
    TreeNode(l.id, l.title, Some("Library"), None, true, Present([]), Some(false), Some(l.rootFolderUrl))
  }

  function FolderNode(f: ItemRecord): TreeNode {
    TreeNode(f.uniqueId, f.name, Some("Folder"), None, true, Present([]), Some(false), Some(f.serverRelativeUrl))
  }

  function FileNode(f: ItemRecord): TreeNode {
    TreeNode(f.uniqueId, f.name, Some(GetFileIcon(f.name)), Some(f.serverRelativeUrl), false, Absent, None,
             Some(f.serverRelativeUrl))
  }

  /** The library nodes that `loadDocumentLibraries` builds from the fetched lists. */
  function LibraryNodes(lists: seq<ListRecord>): (r: seq<TreeNode>)
    ensures |r| <= |lists|
    ensures forall n :: n in r ==> CollapsedEmptyFolder(n) && n.icon == Some("Library")
    ensures forall n :: n in r ==> exists i :: 0 <= i < |lists| && IsDocumentLibrary(lists[i]) && n == LibraryNode(lists[i])
    ensures forall i :: 0 <= i < |lists| && IsDocumentLibrary(lists[i]) ==> LibraryNode(lists[i]) in r
  {
    if lists == [] then []
    else
      var init, last := lists[..|lists| - 1], lists[|lists| - 1];
      var r := LibraryNodes(init) + (if IsDocumentLibrary(last) then [LibraryNode(last)] else []);
      assert forall i :: 0 <= i < |init| ==> lists[i] == init[i];
      r
  }

  /** The library nodes keep the order of the lists: filtering distributes over concatenation. */
  lemma {:induction false} LibraryNodesAppend(a: seq<ListRecord>, b: seq<ListRecord>)
    decreases |b|
    ensures LibraryNodes(a + b) == LibraryNodes(a) + LibraryNodes(b)
  {
    if b == [] {
      assert a + b == a;
    } else {
      var b0 := b[..|b| - 1];
      assert (a + b)[..|a + b| - 1] == a + b0;
      LibraryNodesAppend(a, b0);
    }
  }

  /** The loop of `loadDocumentLibraries` that keeps the visible document libraries. */
  method BuildLibraryNodes(allLists: seq<ListRecord>) returns (documentLibraries: seq<TreeNode>)
    ensures documentLibraries == LibraryNodes(allLists)
  {
    documentLibraries := [];
    for i := 0 to |allLists|
      invariant documentLibraries == LibraryNodes(allLists[..i])
    {
      assert allLists[..i + 1][..i] == allLists[..i];
      if IsDocumentLibrary(allLists[i]) {
        documentLibraries := documentLibraries + [LibraryNode(allLists[i])];
      }
    }
    assert allLists[..|allLists|] == allLists;
  }

  /** The nodes the first loop of `getFolderContents` pushes, one per subfolder. */
  function SubfolderNodes(folders: seq<ItemRecord>): (r: seq<TreeNode>)
    ensures |r| == |folders|
    ensures forall i :: 0 <= i < |folders| ==> r[i] == FolderNode(folders[i])
  {
    seq(|folders|, i requires 0 <= i < |folders| => FolderNode(folders[i]))
  }

  /** The nodes the second loop of `getFolderContents` pushes, one per file. */
  function FileNodes(files: seq<ItemRecord>): (r: seq<TreeNode>)
    ensures |r| == |files|
    ensures forall j :: 0 <= j < |files| ==> r[j] == FileNode(files[j])
  {
    seq(|files|, j requires 0 <= j < |files| => FileNode(files[j]))
  }

  lemma SubfolderNodesSnoc(folders: seq<ItemRecord>, f: ItemRecord)
    ensures SubfolderNodes(folders + [f]) == SubfolderNodes(folders) + [FolderNode(f)]
  {
  }

  lemma FileNodesSnoc(files: seq<ItemRecord>, f: ItemRecord)
    ensures FileNodes(files + [f]) == FileNodes(files) + [FileNode(f)]
  {
  }

  /** The nodes that `getFolderContents` builds from a folder's contents. */
  function FolderNodes(c: FolderContents): (r: seq<TreeNode>)
    ensures |r| == |c.folders| + |c.files|
    ensures forall i :: 0 <= i < |r| ==> (r[i].isFolder <==> i < |c.folders|)
    ensures forall i :: 0 <= i < |c.folders| ==> r[i] == FolderNode(c.folders[i])
    ensures forall j :: 0 <= j < |c.files| ==> r[|c.folders| + j] == FileNode(c.files[j])
  {
    SubfolderNodes(c.folders) + FileNodes(c.files)
  }

  /** What `getFolderContents` returns for a folder, given the fetch; a failed fetch gives no nodes. */
  function FetchedNodes(fetch: string -> Option<FolderContents>, folderUrl: string): seq<TreeNode> {
    match fetch(folderUrl)
    case None => []
    case Some(c) => FolderNodes(c)
  }

  /** Every subfolder node comes before every file node; files open at their server-relative URL. */
  lemma FolderNodesLayout(c: FolderContents)
    ensures forall i, j :: 0 <= i < j < |FolderNodes(c)| && FolderNodes(c)[j].isFolder ==> FolderNodes(c)[i].isFolder
    ensures forall n :: n in FolderNodes(c) && n.isFolder ==> CollapsedEmptyFolder(n)
    ensures forall n :: n in FolderNodes(c) && !n.isFolder ==>
              n.url == n.serverRelativeUrl && n.url.Some? && n.children.Absent?
  {
  }

  /** `getFolderContents(folderServerRelativeUrl)`: subfolders first, then files. */
  method GetFolderContents(folderServerRelativeUrl: string, fetch: string -> Option<FolderContents>)
    returns (nodes: seq<TreeNode>)
    ensures nodes == FetchedNodes(fetch, folderServerRelativeUrl)
  {
    nodes := [];
    var response := fetch(folderServerRelativeUrl);
    if response.None? {
      return;
    }
    var folderContents := response.value;
    for i := 0 to |folderContents.folders|
      invariant nodes == SubfolderNodes(folderContents.folders[..i])
    {
      assert folderContents.folders[..i + 1] == folderContents.folders[..i] + [folderContents.folders[i]];
      SubfolderNodesSnoc(folderContents.folders[..i], folderContents.folders[i]);
      nodes := nodes + [FolderNode(folderContents.folders[i])];
    }
    assert folderContents.folders[..|folderContents.folders|] == folderContents.folders;
    ghost var subfolders := nodes;
    for j := 0 to |folderContents.files|
      invariant nodes == subfolders + FileNodes(folderContents.files[..j])
    {
      assert folderContents.files[..j + 1] == folderContents.files[..j] + [folderContents.files[j]];
      FileNodesSnoc(folderContents.files[..j], folderContents.files[j]);
      nodes := nodes + [FileNode(folderContents.files[j])];
    }
    assert folderContents.files[..|folderContents.files|] == folderContents.files;
    assert nodes == FolderNodes(folderContents);
  }

  // ---------------------------------------------------------------------------
  // The click state machine
  // ---------------------------------------------------------------------------

  /** The condition under which a click fetches and attaches children, read on the node found after toggling. */
  predicate NeedsChildren(updated: Option<TreeNode>) {
    && updated.Some?
    && Expanded(updated.value)
    && updated.value.children == Present([])
    && Truthy(updated.value.serverRelativeUrl)
  }

  /** Collapsing an expanded node keeps its loaded children and fetches nothing. */
  lemma CollapseKeepsChildren(nodes: seq<TreeNode>, key: string, m: TreeNode)
    requires FindNodeInTree(nodes, key) == Some(m) && Expanded(m)
    ensures FindNodeInTree(ToggleNodeExpansion(nodes, key), key) == Some(m.(isExpanded := Some(false)))
    ensures !NeedsChildren(FindNodeInTree(ToggleNodeExpansion(nodes, key), key))
  {
    FindAfterToggle(nodes, key);
  }

  /** Expanding a collapsed, never-loaded folder fetches, and the node ends expanded with the fetched children. */
  lemma ExpandLoadsChildren(nodes: seq<TreeNode>, key: string, m: TreeNode, children: seq<TreeNode>)
    requires FindNodeInTree(nodes, key) == Some(m)
    requires !Expanded(m) && m.children == Present([]) && Truthy(m.serverRelativeUrl)
    ensures NeedsChildren(FindNodeInTree(ToggleNodeExpansion(nodes, key), key))
    ensures FindNodeInTree(AddChildrenToNode(ToggleNodeExpansion(nodes, key), key, children), key)
         == Some(m.(isExpanded := Some(true), children := Present(children)))
  {
    FindAfterToggle(nodes, key);
    FindAfterAddChildren(ToggleNodeExpansion(nodes, key), key, children);
  }

  const LoadLibrariesError: string :=
    "Não foi possível carregar as bibliotecas de documentos. Verifique as permissões ou se há bibliotecas no site."

  /** The state of the `TreeView` component. */
  class TreeViewComponent {
    var treeData: seq<TreeNode>
    var loading: bool
    var error: string

    constructor()
      ensures treeData == [] && loading && error == ""
    {
      treeData, loading, error := [], true, "";
    }

    /** `loadDocumentLibraries`; `None` stands for a rejected list request. */
    method LoadDocumentLibraries(allLists: Option<seq<ListRecord>>)
      modifies this
      ensures !loading
      ensures allLists.Some? ==> treeData == LibraryNodes(allLists.value) && error == ""
      ensures allLists.None? ==> treeData == old(treeData) && error == LoadLibrariesError
    {
      loading, error := true, "";
      if allLists.Some? {
        var documentLibraries := BuildLibraryNodes(allLists.value);
        treeData, loading := documentLibraries, false;
      } else {
        error, loading := LoadLibrariesError, false;
      }
    }

    /**
     * `handleNodeClick(node)`. A folder is toggled, then the node is looked up
     * again by key and, when it is now expanded with an empty children list and
     * a server-relative URL, its contents are fetched and attached. A file
     * changes no state; its URL, when set, is returned as the page to open.
     */
    method HandleNodeClick(node: TreeNode, fetch: string -> Option<FolderContents>) returns (openUrl: Option<string>)
      modifies this
      ensures error == old(error)
      ensures !node.isFolder ==>
                treeData == old(treeData) && loading == old(loading)
                && openUrl == (if Truthy(node.url) then node.url else None)
      ensures node.isFolder ==> openUrl == None
      ensures node.isFolder ==>
                var toggled := ToggleNodeExpansion(old(treeData), node.key);
                var updated := FindNodeInTree(toggled, node.key);
                if NeedsChildren(updated) then
                  treeData == AddChildrenToNode(toggled, node.key, FetchedNodes(fetch, updated.value.serverRelativeUrl.value))
                  && !loading
                else
                  treeData == toggled && loading == old(loading)
    {
      openUrl := None;
      if node.isFolder {
        treeData := ToggleNodeExpansion(treeData, node.key);
        var updatedNode := FindNodeInTree(treeData, node.key);
        if NeedsChildren(updatedNode) {
          loading := true;
          var children := GetFolderContents(updatedNode.value.serverRelativeUrl.value, fetch);
          treeData := AddChildrenToNode(treeData, updatedNode.value.key, children);
          loading := false;
        }
      } else if Truthy(node.url) {
        openUrl := node.url;
      }
    }
  }
}
