/** The two kinds of conversation. */
module Chats {
  datatype ChatType = Group | C2c
}
