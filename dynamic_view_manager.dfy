/**
 * `DynamicViewManager`: named views, one of which may be the active view.
 * The views are opaque values here; only their registration and selection
 * are modelled.
 */
module ViewManager {
  import opened Wrappers

  /** Why an operation raised ValueError. */
  datatype ViewError = DuplicateName(name: string) | NoSuchView(name: string)

  class DynamicViewManager<V(==)> {
    var views: map<string, V>
    var current: Option<V>

    /** A new manager starts with the given views and no active view. */
    constructor(views: map<string, V>)
      ensures this.views == views && CurrentView() == None
    {
      this.views := views;
      current := None;
    }

    /** `get_current_view`. */
    function CurrentView(): Option<V>
      reads this
    {
      current
    }

    /** `views.get(key)`. */
    function GetView(key: string): (r: Option<V>)
      reads this
      ensures r.Some? <==> key in views
      ensures r.Some? ==> r.value == views[key]
    {
      if key in views then Some(views[key]) else None
    }

    /** Registers a view under a new name; an existing name is refused and nothing changes. */
    method AddView(name: string, view: V) returns (r: Result<(), ViewError>)
      modifies this
      ensures r.Failure? <==> name in old(views)
      ensures r.Failure? ==> r.error == DuplicateName(name) && views == old(views)
      ensures r.Success? ==> views == old(views)[name := view]
      ensures CurrentView() == old(CurrentView())
    {
      if name in views {
        return Failure(DuplicateName(name));
      }
      views := views[name := view];
      return Success(());
    }

    /** Forgets a view if it is registered; the active view stays active even if it was the one removed. */
    method RemoveView(key: string)
      modifies this
      ensures views == old(views) - {key}
      ensures CurrentView() == old(CurrentView())
    {
      if key in views {
        views := views - {key};
      }
    }

    /** Makes a registered view the active one and returns it; an unknown name is refused and nothing changes. */
    method ChangeView(name: string) returns (r: Result<V, ViewError>)
      modifies this
      ensures r.Failure? <==> name !in views
      ensures r.Failure? ==> r.error == NoSuchView(name) && CurrentView() == old(CurrentView())
      ensures r.Success? ==> r.value == views[name] && CurrentView() == GetView(name)
      ensures views == old(views)
    {
      var view := GetView(name);
      if view.None? {
        return Failure(NoSuchView(name));
      }
      current := view;
      return Success(view.value);
    }
  }
}
