/**
 * The component registry: the closed set of component names the live preview
 * resolves generated markup against. It is a constant; nothing registers a
 * component at run time.
 */
module UiRegistry {
  import opened Wrappers

  /** The ten registered components. */
  datatype Component = Navbar | Sidebar | Container | Grid | Button | Input | Table | Card | Modal | Chart

  /** The key a component is registered under. */
  function Name(c: Component): string {
    match c
    case Navbar => "Navbar"
    case Sidebar => "Sidebar"
    case Container => "Container"
    case Grid => "Grid"
    case Button => "Button"
    case Input => "Input"
    case Table => "Table"
    case Card => "Card"
    case Modal => "Modal"
    case Chart => "Chart"
  }

  /** The entries of `ComponentRegistry`, in declaration order. */
  const Registered: seq<Component> := [Navbar, Sidebar, Container, Grid, Button, Input, Table, Card, Modal, Chart]

  /** The components re-exported by the same file, in declaration order. */
  const Exported: seq<Component> := [Navbar, Sidebar, Container, Grid, Button, Input, Table, Card, Modal, Chart]

  /** Look `name` up among `entries`. */
  function Find(entries: seq<Component>, name: string): (r: Option<Component>)
    ensures r.Some? ==> r.value in entries && Name(r.value) == name
    ensures r.None? ==> forall c :: c in entries ==> Name(c) != name
  {
    if entries == [] then None
    else if Name(entries[0]) == name then Some(entries[0])
    else Find(entries[1..], name)
  }

  /** `ComponentRegistry[name]`, over the registry's own keys only. */
  function Lookup(name: string): (r: Option<Component>)
    ensures r.Some? ==> r.value in Registered && Name(r.value) == name
    ensures r.None? ==> forall c :: c in Registered ==> Name(c) != name
  {
    Find(Registered, name)
  }

  /** The registry's keys: exactly the strings that resolve. */
  function Keys(): (ks: set<string>)
    ensures forall k :: k in ks <==> Lookup(k).Some?
  {
    var ks := set c | c in Registered :: Name(c);
    forall k | Lookup(k).Some? ensures k in ks {
      assert Name(Lookup(k).value) == k;
    }
    ks
  }

  /** Every component is registered. */
  lemma IsRegistered(c: Component)
    ensures c in Registered
  {
    match c
    case Navbar => assert Registered[0] == c;
    case Sidebar => assert Registered[1] == c;
    case Container => assert Registered[2] == c;
    case Grid => assert Registered[3] == c;
    case Button => assert Registered[4] == c;
    case Input => assert Registered[5] == c;
    case Table => assert Registered[6] == c;
    case Card => assert Registered[7] == c;
    case Modal => assert Registered[8] == c;
    case Chart => assert Registered[9] == c;
  }

  /** Each key names one component. */
  lemma NameInjective(c: Component, d: Component)
    requires Name(c) == Name(d)
    ensures c == d
  {
  }

  /** Looking up a component's own key yields that component. */
  lemma LookupName(c: Component)
    ensures Lookup(Name(c)) == Some(c)
  {
    IsRegistered(c);
    var r := Lookup(Name(c));
    NameInjective(r.value, c);
  }

  /** Looking up a string yields a component exactly when it is that component's key. */
  lemma LookupSound(name: string)
    ensures Lookup(name).Some? <==> exists c :: Name(c) == name
    ensures Lookup(name).Some? ==> Name(Lookup(name).value) == name
  {
    if exists c :: Name(c) == name {
      var c :| Name(c) == name;
      LookupName(c);
    }
  }

  /** A name resolves exactly when it is one of the ten keys below. */
  lemma LookupClosed(name: string)
    ensures Lookup(name).Some? <==>
      name in ["Navbar", "Sidebar", "Container", "Grid", "Button", "Input", "Table", "Card", "Modal", "Chart"]
  {
    var r := Lookup(name);
    if r.Some? {
      assert Name(r.value) == name;
    } else {
      assert forall c :: Name(c) != name by {
        forall c ensures Name(c) != name { IsRegistered(c); }
      }
      assert Name(Navbar) != name && Name(Sidebar) != name && Name(Container) != name && Name(Grid) != name;
      assert Name(Button) != name && Name(Input) != name && Name(Table) != name && Name(Card) != name;
      assert Name(Modal) != name && Name(Chart) != name;
    }
  }

  /** The registry holds ten distinct components, the same ten that are re-exported. */
  lemma ExportsMatchRegistry()
    ensures |Registered| == 10 && |Exported| == 10
    ensures forall i, j :: 0 <= i < j < |Registered| ==> Registered[i] != Registered[j]
    ensures forall c :: c in Exported <==> c in Registered
  {
  }

  /** The stack layouts exist as components but are not registered. */
  lemma StacksNotRegistered()
    ensures Lookup("HStack").None? && Lookup("VStack").None? && Lookup("Spacer").None?
  {
    assert forall c :: Name(c) != "HStack" && Name(c) != "VStack" && Name(c) != "Spacer";
  }
}
