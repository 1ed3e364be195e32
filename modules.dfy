/** `FetchModules` of `src/modules/mod.rs`: the ordered list of output
    modules, which only grows. */
module Modules {
  /** `FetchModule`: one line of output. */
  datatype FetchModule = FetchModule(text: string)

  class FetchModules {
    var modules: seq<FetchModule>

    /** `new`: no modules yet. */
    constructor()
      ensures modules == []
    {
      modules := [];
    }

    /** `add_module`: appends at the end, keeping everything before it. */
    method AddModule(m: FetchModule)
      modifies this
      ensures modules == old(modules) + [m]
      ensures GetModuleCount() == old(GetModuleCount()) + 1
      ensures GetModules()[..old(GetModuleCount())] == old(GetModules())
    {
      modules := modules + [m];
    }

    /** `get_modules`: the modules in the order they were added. */
    function GetModules(): seq<FetchModule>
      reads this
    {
      modules
    }

    /** `get_module_count`: how many modules there are. */
    function GetModuleCount(): (n: nat)
      reads this
      ensures n == |GetModules()|
    {
      |modules|
    }
  }

  /** Adding modules one after another lists them in that order. */
  method AddInOrder(list: FetchModules, added: seq<FetchModule>)
    modifies list
    ensures list.GetModules() == old(list.GetModules()) + added
    ensures list.GetModuleCount() == old(list.GetModuleCount()) + |added|
  {
    for i := 0 to |added|
      invariant list.modules == old(list.modules) + added[..i]
    {
      list.AddModule(added[i]);
      assert added[..i + 1] == added[..i] + [added[i]];
    }
    assert added[..|added|] == added;
  }
}
