/** The two MudBlazor enumerations the components choose between: button colours and variants. */
module Mud {
  datatype Color = Default | Primary | Secondary | Tertiary | Info | Success | Warning | Error | Dark

  datatype Variant = Text | Filled | Outlined
}
