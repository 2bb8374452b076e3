/** What a plugin's request handler returns (src/core/webcontrol_base.h). */
module Handlers {

  datatype Status = GoOn | Allow | Deny | Ok | Error
}
