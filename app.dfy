/** The page shell: which of the two views is showing, the section to scroll
    to once it has been rendered, the counter that keys the converter, the
    advisory error slot and the output format shared with the converter.
    The shell mounts the converter and the assistant only in the workspace
    view, so the component instances are part of its state. Scrolling
    itself is a browser effect and is left out; only the state it reads
    and clears is kept. */
module App {
  import opened Wrappers
  import WebConverter
  import Assistant

  datatype View = Home | Workspace

  const FeaturesSection := "features"
  const ConverterSection := "converter-section"
  const AssistantSection := "ai-section"

  /** The element ids the shell renders in each view. */
  function SectionIds(view: View): (ids: set<string>)
    ensures FeaturesSection in ids <==> view == Home
    ensures ConverterSection in ids <==> view == Workspace
    ensures AssistantSection in ids <==> view == Workspace
  {
    assert |FeaturesSection| != |ConverterSection| && |FeaturesSection| != |AssistantSection|;
    match view
    case Home => {FeaturesSection}
    case Workspace => {ConverterSection, AssistantSection}
  }

  /** JavaScript truthiness of an optional string: present and non-empty. */
  predicate Truthy(s: Option<string>) {
    s.Some? && s.value != ""
  }

  /** A same-view navigation that asks for the converter section while in
      the workspace: the "new task" request that replaces the converter. */
  predicate IsResetRequest(current: View, target: View, targetId: Option<string>) {
    current == target && current == Workspace && targetId == Some(ConverterSection)
  }

  class Shell {
    var view: View
    var format: WebConverter.Format
    var pendingScroll: Option<string>
    var workspaceKey: nat
    var lastError: Option<string>

    /** The converter and assistant instances currently mounted; null while
        the home view is showing. */
    var converter: WebConverter.Converter?
    var assistant: Assistant.Panel?

    /** Both panels are mounted exactly in the workspace view, and nothing
        ever stores an error in `lastError`: the converter is handed a
        callback it never declares. A pending scroll target is never empty,
        since it is only set from a truthy id. */
    ghost predicate Valid()
      reads this, converter, assistant
    {
      && (view == Workspace <==> converter != null)
      && (view == Workspace <==> assistant != null)
      && (converter != null ==> converter.Valid())
      && (assistant != null ==> assistant.Valid())
      && lastError == None
      && (pendingScroll.Some? ==> pendingScroll.value != "")
    }

    constructor ()
      ensures Valid()
      ensures view == Home && format == WebConverter.Excel && pendingScroll == None
      ensures workspaceKey == 0 && lastError == None
    {
      view := Home;
      format := WebConverter.Excel;
      pendingScroll := None;
      workspaceKey := 0;
      lastError := None;
      converter := null;
      assistant := null;
    }

    /** Renders `view` afresh after a view change: entering the workspace
        mounts a new converter and a new assistant, leaving it unmounts them. */
    method Remount()
      modifies this
      ensures view == old(view) && format == old(format) && pendingScroll == old(pendingScroll)
      ensures workspaceKey == old(workspaceKey) && lastError == old(lastError)
      ensures view == Workspace ==>
        && converter != null && fresh(converter) && converter.Valid() && converter.Initial()
        && assistant != null && fresh(assistant) && assistant.Valid() && assistant.Initial()
      ensures view == Home ==> converter == null && assistant == null
    {
      if view == Workspace {
        converter := new WebConverter.Converter();
        assistant := new Assistant.Panel();
      } else {
        converter := null;
        assistant := null;
      }
    }

    /** The navigation handler. Switching views records the target section
        for the scroll effect; staying in the same view leaves the view and
        the pending target alone, and a request for the converter section
        from within the workspace bumps the converter's key, which mounts a
        fresh converter, and clears `lastError`. The format is never touched. */
    method NavigateTo(target: View, targetId: Option<string>)
      requires Valid()
      modifies this
      ensures Valid()
      ensures format == old(format)
      ensures workspaceKey >= old(workspaceKey)
      ensures old(view) != target ==>
        && view == target
        && pendingScroll == (if Truthy(targetId) then targetId else old(pendingScroll))
        && workspaceKey == old(workspaceKey) && lastError == old(lastError)
      ensures old(view) != target && target == Workspace ==>
        && converter != null && fresh(converter) && converter.Initial()
        && assistant != null && fresh(assistant) && assistant.Initial()
      ensures old(view) == target ==> view == old(view) && pendingScroll == old(pendingScroll)
      ensures IsResetRequest(old(view), target, targetId) ==>
        && workspaceKey == old(workspaceKey) + 1 && lastError == None
        && converter != null && fresh(converter) && converter.Initial()
        && assistant == old(assistant)
      ensures old(view) == target && !IsResetRequest(old(view), target, targetId) ==>
        && workspaceKey == old(workspaceKey) && lastError == old(lastError)
        && converter == old(converter) && assistant == old(assistant)
    {
      if view != target {
        view := target;
        if Truthy(targetId) {
          pendingScroll := targetId;
        }
        Remount();
      } else if Truthy(targetId) {
        if targetId.value == ConverterSection && view == Workspace {
          workspaceKey := workspaceKey + 1;
          lastError := None;
          converter := new WebConverter.Converter();
        }
      }
    }

    /** The effect that runs after each render: once the pending section is
        present in the current view, it is scrolled to and forgotten. */
    method ScrollEffect()
      requires Valid()
      modifies this
      ensures Valid()
      ensures pendingScroll == (if old(pendingScroll).Some? && old(pendingScroll).value in SectionIds(view)
                                then None else old(pendingScroll))
      ensures view == old(view) && format == old(format) && workspaceKey == old(workspaceKey)
      ensures lastError == old(lastError) && converter == old(converter) && assistant == old(assistant)
    {
      if Truthy(pendingScroll) && pendingScroll.value in SectionIds(view) {
        pendingScroll := None;
      }
    }

    /** The converter's format toggle, which sets the shell's format. */
    method SetFormat(f: WebConverter.Format)
      requires Valid()
      modifies this
      ensures Valid()
      ensures format == f
      ensures view == old(view) && pendingScroll == old(pendingScroll) && workspaceKey == old(workspaceKey)
      ensures lastError == old(lastError) && converter == old(converter) && assistant == old(assistant)
    {
      format := f;
    }
  }
}
