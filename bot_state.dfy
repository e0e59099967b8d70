/** The bot's on/off switch (`BotState`). */
module Bot {

  class BotState {
    var isActive: bool

    /** The bot starts switched off. */
    constructor()
      ensures !isActive
    {
      isActive := false;
    }

    function GetStatus(): bool
      reads this
    {
      isActive
    }

    method Activate()
      modifies this
      ensures isActive
    {
      isActive := true;
    }

    method Deactivate()
      modifies this
      ensures !isActive
    {
      isActive := false;
    }

    method Toggle()
      modifies this
      ensures isActive == !old(isActive)
    {
      isActive := !isActive;
    }
  }

  /** Toggling twice restores the previous status. */
  method ToggleTwiceRestores(bot: BotState)
    modifies bot
    ensures bot.GetStatus() == old(bot.GetStatus())
  {
    bot.Toggle();
    bot.Toggle();
  }
}
