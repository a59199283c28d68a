/** The single-application page of the host control GUI (hostControl/gui/src/pages/index.js):
    one module, loaded under the fixed domain `shop.<userId>.user`, with three state fields. */
module HostControl {
  import opened Wrappers
  import opened Text
  import opened HostApi
  import opened Views

  /** What the load request came back with: an HTTP response, or a rejection (the request
      or the reading of its body failed) with its message. */
  datatype Response =
    | HttpResponse(status: int, statusText: string, body: string)
    | Rejected(message: string)

  class HomePage {
    var userId: string
    /** Timer ticks since the load started, or -1 when no load is shown as pending. */
    var loading: int
    /** The url of the loaded application. */
    var url: Option<string>
    var error: Option<string>

    /** The page never holds both a url and an error. */
    ghost predicate Valid()
      reads this
    {
      -1 <= loading && !(url.Some? && error.Some?)
    }

    constructor ()
      ensures Valid()
      ensures userId == "<none>" && loading == -1 && url == None && error == None
    {
      userId := "<none>";
      loading := -1;
      url := None;
      error := None;
    }

    /** The host reported the signed-in user. */
    method ReceiveUserId(data: string)
      requires Valid()
      modifies this`userId
      ensures Valid() && userId == data
    {
      userId := data;
    }

    /** The domain the page loads into and unloads from. */
    function Domain(): (d: string)
      reads this
      ensures |d| == |userId| + 10
      ensures d[..5] == "shop." && d[|d| - 5..] == ".user" && d[5..|d| - 5] == userId
    {
      UserDomain("shop", userId)
    }

    /** One timer tick. */
    method Tick()
      requires Valid()
      modifies this`loading
      ensures Valid() && loading == old(loading) + 1
    {
      loading := loading + 1;
    }

    /** Submitting the form. With no url it starts a load of `moduleName` and restarts
        the tick count at 0, whether or not a load is already pending (there is no
        guard). With a url it unloads and clears the page at once. */
    method SendRequest(moduleName: string) returns (req: Request)
      requires Valid()
      modifies this`loading, this`url, this`error
      ensures Valid()
      ensures old(url).None? ==>
        && req == LoadRequest(moduleName, Domain())
        && loading == 0 && url == None && error == old(error)
      ensures old(url).Some? ==>
        && req == UnloadRequest(Domain())
        && loading == -1 && url == None && error == None
    {
      if url.None? {
        loading := 0;
        req := LoadRequest(moduleName, Domain());
      } else {
        req := UnloadRequest(Domain());
        loading, url, error := -1, None, None;
      }
    }

    /** The load request completed: a status of 400 or more, or a rejection, becomes the
        error; any other response's body becomes the url. Either way the load ends. */
    method Complete(response: Response)
      requires Valid()
      modifies this`loading, this`url, this`error
      ensures Valid() && loading == -1
      ensures url.Some? <==> response.HttpResponse? && response.status < 400
      ensures url.Some? ==> url.value == response.body && error == None
      ensures url.None? ==> error == Some(
        if response.Rejected? then response.message else response.statusText)
    {
      match response
      case Rejected(message) =>
        loading, url, error := -1, None, Some(message);
      case HttpResponse(status, statusText, body) =>
        if status >= 400 {
          loading, url, error := -1, None, Some(statusText);
        } else {
          loading, url, error := -1, Some(body), None;
        }
    }

    /** What the form shows: a loaded application offers "Unload application" and a link;
        otherwise a pending load's progress outranks the error, which outranks an empty
        cell. */
    function Render(): (r: View)
      reads this
      ensures r.actionText == if url.Some? then UnloadAction else LoadAction
      ensures r.run.RunLink? <==> url.Some?
      ensures r.run.Progress? <==> url.None? && loading >= 0
      ensures r.run.ErrorSpan? <==> url.None? && loading < 0 && error.Some?
      ensures r.run.RunLink? ==> r.run.href == url.value
      ensures r.run.ErrorSpan? ==> r.run.message == error.value
      ensures r.run.Progress? ==>
        |r.run.text| == (if loading <= 8 then 8 else loading) &&
        r.run.text[..8] == "loading." &&
        forall i :: 7 <= i < |r.run.text| ==> r.run.text[i] == '.'
    {
      if url.Some? then View(UnloadAction, RunLink(url.value))
      else if loading >= 0 then View(LoadAction, Progress(PadEnd("loading.", loading, '.')))
      else if error.Some? then View(LoadAction, ErrorSpan(error.value))
      else View(LoadAction, Blank)
    }
  }
}
