/** A user row (`users` table). Passwords are stored as the hash the
    caller computed. */
module UserModel {
  import opened Common

  class User {
    /** Primary key, fixed once the row exists. */
    const id: nat
    var name: string
    var email: string
    var password: string
    var role: string
    var profileImage: Option<string>
    var createdAt: nat
    var lastLogin: Option<nat>
    var isActive: bool

    /** `User(...)`: a client unless a role is given, active, never logged in. */
    constructor (id: nat, name: string, email: string, password: string, now: nat,
                 role: string := CLIENT, profileImage: Option<string> := None)
      ensures this.id == id && this.name == name && this.email == email
      ensures this.password == password && this.role == role
      ensures this.profileImage == profileImage && this.createdAt == now
      ensures this.lastLogin == None && this.isActive
    {
      this.id := id;
      this.name := name;
      this.email := email;
      this.password := password;
      this.role := role;
      this.profileImage := profileImage;
      this.createdAt := now;
      this.lastLogin := None;
      this.isActive := true;
    }
  }
}
