/** The push-notification device token cell (`DeviceTokenState`) and its static
    `instance` slot. */
module DeviceToken {
  import opened Wrappers

  datatype InstanceError = NotInitialized

  /** Where the source's static `instance` field lives. */
  class Registry {
    var instance: DeviceTokenState?

    constructor()
      ensures instance == null
    {
      instance := null;
    }

    /** `getInstance`: throws before any construction, afterwards yields the last constructed state. */
    function GetInstance(): (r: Result<DeviceTokenState, InstanceError>)
      reads this
      ensures instance == null ==> r == Failure(NotInitialized)
      ensures instance != null ==> r == Success(instance)
    {
      if instance == null then Failure(NotInitialized) else Success(instance)
    }
  }

  class DeviceTokenState {
    var deviceToken: Option<string>

    /** The token starts out `null`; the new object becomes the static instance. */
    constructor(registry: Registry)
      modifies registry
      ensures deviceToken == None
      ensures registry.instance == this
    {
      deviceToken := None;
      new;
      registry.instance := this;
    }

    method SetDeviceToken(token: string)
      modifies this
      ensures deviceToken == Some(token)
    {
      deviceToken := Some(token);
    }

    function GetDeviceToken(): Option<string>
      reads this
    {
      deviceToken
    }

    method Clear()
      modifies this
      ensures deviceToken == None
    {
      deviceToken := None;
    }
  }
}
