/** Constants and codes of runtime/rfork/include/serverlessx/rfork_runtime.h. */
module RforkTypes {
  import opened Words

  const TOKEN_SIZE := 48
  const COOKIE_SIZE := 16
  const CHECKSUM_OFFSET := 40
  const ABI_VERSION := 1
  const MAX_EINTR_RETRIES := 8
  const EINTR := 4
  const EPROTO := 71

  const ROLE_INVALID: U32 := 0
  const ROLE_PARENT: U32 := 1
  const ROLE_REMOTE_CHILD: U32 := 2

  datatype Status =
    | Ok
    | ErrInvalidArgument
    | ErrHandlerOverflow
    | ErrCookieInvalid
    | ErrIoOpsInvalid
    | ErrRoleRead
    | ErrRoleShortRead
    | ErrRoleWrite
    | ErrRoleShortWrite
    | ErrRoleToken
    | ErrRoleMismatch
    | ErrPid
    | ErrDeviceOpen
    | ErrIoctl
    | ErrDeviceClose
    | ErrResumeReturned
    | ErrDeviceOwnership

  datatype Operation = NoOperation | Prepare | ResumeRemote

  datatype Stage = Config | RoleBefore | PidBefore | DeviceOpen | Ioctl | RoleAfter | PidAfter | DeviceClose | Complete
}
