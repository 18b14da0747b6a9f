/**
 * The saved-projects dialog (src/components/SavedProjectsModal.tsx): the list
 * it offers (the demo project, then every storage key naming a saved project)
 * and what choosing an entry does.
 */
module SavedProjects {
  import opened Options
  import opened Text
  import opened Js

  const ProjectPrefix := "project_"
  const DemoProject := "Demo Project"
  const NotFoundMessage := "Project not found!"

  /** `keys.filter(key => key.startsWith('project_'))` */
  function ProjectKeys(keys: seq<string>): (r: seq<string>)
    ensures |r| <= |keys|
    ensures forall k :: k in r <==> k in keys && StartsWith(k, ProjectPrefix)
  {
    if keys == [] then []
    else (if StartsWith(keys[0], ProjectPrefix) then [keys[0]] else []) + ProjectKeys(keys[1..])
  }

  /** The list the dialog shows: the demo project first, then the project keys in storage order. */
  function SavedList(keys: seq<string>): seq<string> {
    [DemoProject] + ProjectKeys(keys)
  }

  /** What choosing an entry does, in order. */
  datatype Effect = OnLoad(projectData: Value) | Alert(message: string) | Close

  /**
   * `handleLoad(key)`: the demo project loads the demo configuration; any other
   * key loads the project named by the key with its first `project_` removed,
   * or alerts when there is none; the dialog closes either way. `demoConfig`
   * and `loadProject` stand for the two loaders, which are not part of this model.
   */
  function LoadEffects(key: string, demoConfig: Value, loadProject: string -> Value): seq<Effect> {
    if key == DemoProject then [OnLoad(demoConfig), Close]
    else
      var projectData := loadProject(RemoveFirst(key, ProjectPrefix));
      if Truthy(projectData) then [OnLoad(projectData), Close] else [Alert(NotFoundMessage), Close]
  }

  class SavedProjectsModal {
    var savedProjects: seq<string>

    constructor ()
      ensures savedProjects == []
    {
      savedProjects := [];
    }

    /**
     * The effect run whenever the dialog opens or closes; `keys` is
     * `Object.keys(localStorage)` in the browser's order.
     */
    method Refresh(keys: seq<string>)
      modifies this
      ensures savedProjects == SavedList(keys)
    {
      savedProjects := [DemoProject] + ProjectKeys(keys);
    }

    /** What the dialog renders: nothing when closed, the list when open. */
    function Rendered(isOpen: bool): (r: Option<seq<string>>)
      reads this
      ensures r.Some? <==> isOpen
      ensures r.Some? ==> r.value == savedProjects
    {
      if isOpen then Some(savedProjects) else None
    }
  }

  // ---------------------------------------------------------------------------
  // Properties

  /** Filtering a concatenation filters each part: the project keys keep their storage order. */
  lemma {:induction false} ProjectKeysConcat(a: seq<string>, b: seq<string>)
    ensures ProjectKeys(a + b) == ProjectKeys(a) + ProjectKeys(b)
  {
    if a == [] {
      assert a + b == b;
    } else {
      assert (a + b)[1..] == a[1..] + b;
      ProjectKeysConcat(a[1..], b);
    }
  }

  /** When every key names a project, the list shows all of them in order. */
  lemma {:induction false} AllProjectKeysListed(keys: seq<string>)
    requires forall k :: k in keys ==> StartsWith(k, ProjectPrefix)
    ensures ProjectKeys(keys) == keys
  {
    if keys != [] {
      AllProjectKeysListed(keys[1..]);
      assert keys == [keys[0]] + keys[1..];
    }
  }

  /** The demo project always comes first; every later entry is a project key from storage. */
  lemma ListShape(keys: seq<string>)
    ensures SavedList(keys)[0] == DemoProject
    ensures forall i :: 1 <= i < |SavedList(keys)| ==>
      SavedList(keys)[i] in keys && StartsWith(SavedList(keys)[i], ProjectPrefix)
    ensures forall k :: k in keys && StartsWith(k, ProjectPrefix) ==> k in SavedList(keys)
  {
    var list := SavedList(keys);
    forall i | 1 <= i < |list| ensures list[i] in keys && StartsWith(list[i], ProjectPrefix) {
      assert list[i] == ProjectKeys(keys)[i - 1];
    }
  }

  /** Every choice ends by closing the dialog, after exactly one load or one alert. */
  lemma LoadAlwaysCloses(key: string, demoConfig: Value, loadProject: string -> Value)
    ensures |LoadEffects(key, demoConfig, loadProject)| == 2
    ensures LoadEffects(key, demoConfig, loadProject)[1] == Close
    ensures LoadEffects(key, demoConfig, loadProject)[0].OnLoad?
      || LoadEffects(key, demoConfig, loadProject)[0] == Alert(NotFoundMessage)
  {
  }

  /**
   * A listed project key loads the project whose id is the rest of the key;
   * when the loader finds nothing, the user is alerted and nothing is loaded.
   */
  lemma ListedKeyLoadsItsId(keys: seq<string>, i: nat, demoConfig: Value, loadProject: string -> Value)
    requires 1 <= i < |SavedList(keys)|
    ensures StartsWith(SavedList(keys)[i], ProjectPrefix)
    ensures var key := SavedList(keys)[i]; var projectData := loadProject(key[|ProjectPrefix|..]);
      && (Truthy(projectData) ==> LoadEffects(key, demoConfig, loadProject) == [OnLoad(projectData), Close])
      && (!Truthy(projectData) ==> LoadEffects(key, demoConfig, loadProject) == [Alert(NotFoundMessage), Close])
  {
    ListShape(keys);
    var key := SavedList(keys)[i];
    RemoveFirstOfPrefix(key, ProjectPrefix);
    assert key != DemoProject by {
      assert key[..|ProjectPrefix|] == ProjectPrefix;
      assert DemoProject[0] != ProjectPrefix[0];
    }
  }

  /** The demo entry always loads the demo configuration. */
  lemma DemoLoadsDemoConfig(demoConfig: Value, loadProject: string -> Value)
    ensures LoadEffects(DemoProject, demoConfig, loadProject) == [OnLoad(demoConfig), Close]
  {
  }
}
