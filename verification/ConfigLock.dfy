/** The configuration lock of public/cmd/vty.c and the node changes of public/cmd/command.c that take and give it
    back. */
module ConfigLocks {

  datatype Node =
    | Auth | View | AuthEnable | Enable | Config | Debug | Aaa | Keychain | KeychainKey | Interface | Zebra | Table
    | Rip | Ripng | Bgp | BgpVpnv4 | BgpIpv4 | BgpIpv4m | BgpIpv6 | Ospf | Ospf6 | Masc | Irdp | Ip | Access | Prefix
    | AccessIpv6 | PrefixIpv6 | AsList | CommunityList | Rmap | Smux | Dump | Forwarding | VtyNode

  /** The nodes in which a terminal configures: the cases that end and ^Z send back to Enable. */
  predicate Configuring(n: Node) {
    n.Config? || n.Interface? || n.Zebra? || n.Rip? || n.Ripng? || n.Bgp? || n.BgpVpnv4? || n.BgpIpv4? || n.BgpIpv4m?
    || n.BgpIpv6? || n.Rmap? || n.Ospf? || n.Ospf6? || n.Keychain? || n.KeychainKey? || n.Masc? || n.VtyNode?
  }

  /** One level up. */
  function Outer(n: Node): Node {
    match n
    case Config => Enable
    case Interface | Zebra | Bgp | Rip | Ripng | Ospf | Ospf6 | Keychain | Masc | Rmap | VtyNode => Config
    case BgpVpnv4 | BgpIpv4 | BgpIpv4m | BgpIpv6 => Bgp
    case KeychainKey => Keychain
    case _ => n
  }

  /** Going up never enters a configuring node from outside, leaves them only from the node Config, and from any of them
      comes to Enable by way of Config. */
  lemma LeavesByConfig(n: Node)
    ensures Configuring(Outer(n)) <==> Configuring(n) && n != Config
    ensures if Configuring(n) then Outer(Outer(Outer(n))) == Enable && Outer(Config) == Enable else Outer(n) == n
    ensures Configuring(n) ==> n == Config || Outer(n) == Config || Outer(Outer(n)) == Config
  {
  }

  /** The nodes that ^C does not leave although they configure. */
  predicate KeptByStop(n: Node) {
    n.BgpVpnv4? || n.BgpIpv4? || n.BgpIpv4m? || n.BgpIpv6?
  }

  function AfterPassword(n: Node, right: bool, advanced: bool, secret: bool, fail: int): Node {
    if right then (if n == Auth then (if advanced && !secret then Enable else View) else Enable)
    else if fail >= 2 && n == AuthEnable then View
    else n
  }

  /** The node after an action, given whether the lock is taken and how many passwords were wrong. */
  function NodeAfter(n: Node, a: Action, taken: bool, fail: int): Node {
    match a
    case ConfigureTerminal => if taken then n else Node.Config
    case EnableCommand(secret) => if secret then AuthEnable else Enable
    case Disable => View
    case EnterMode(mode) => mode
    case Exit => Outer(n)
    case End | EndConfig => if Configuring(n) then Enable else n
    case StopInput => if Configuring(n) && !KeptByStop(n) then Enable else n
    case Password(right, advanced, secret) => AfterPassword(n, right, advanced, secret, fail)
  }

  class Terminal {
    var node: Node
    var config: int
    var closing: bool
    var fail: int

    constructor (node: Node)
      ensures this.node == node && config == 0 && !closing && fail == 0
    {
      this.node, config, closing, fail := node, 0, false, 0;
    }
  }

  /** What a terminal can do; a command can only be given in a node that has it. */
  datatype Action =
    | ConfigureTerminal           // in Enable
    | EnableCommand(secret: bool) // in View; secret when a password is set
    | Disable                     // in Enable
    | EnterMode(mode: Node)       // from one configuring node to another: interface, route-map, key chain and the like
    | Exit
    | End
    | StopInput                   // ^C
    | EndConfig                   // ^Z
    | Password(right: bool, advanced: bool, secret: bool)

  predicate Offered(n: Node, a: Action) {
    match a
    case ConfigureTerminal => n.Enable?
    case EnableCommand(_) => n.View?
    case Disable => n.Enable?
    case EnterMode(mode) => Configuring(n) && Configuring(mode)
    case Password(_, _, _) => n.Auth? || n.AuthEnable?
    case Exit | End | EndConfig => !n.Auth? && !n.AuthEnable?
    case StopInput => true
  }

  class Host {
    var vtyConfig: int
    var all: set<Terminal>

    ghost predicate Exclusive()
      reads this, all
    {
      forall t, u :: t in all && u in all && t.config == 1 && u.config == 1 ==> t == u
    }

    /** The lock is taken exactly when a terminal has it, and a terminal has it exactly while it configures. */
    ghost predicate Valid()
      reads this, all
    {
      && (vtyConfig == 0 || vtyConfig == 1) && Exclusive()
      && (forall t :: t in all ==> (t.config == 0 || t.config == 1) && (t.config == 1 <==> Configuring(t.node)))
      && (vtyConfig == 1 <==> exists t :: t in all && t.config == 1)
    }

    constructor ()
      ensures Valid() && all == {} && vtyConfig == 0
    {
      vtyConfig, all := 0, {};
    }

    /** However many terminals there are, at most one configures, and while one does the lock is taken. */
    lemma MutualExclusion(t: Terminal, u: Terminal)
      requires Valid() && t in all && u in all && Configuring(t.node) && Configuring(u.node)
      ensures t == u && vtyConfig == 1
    {
      assert t.config == 1 && u.config == 1;
    }

    /** vty_create. */
    method Connect(passwordCheck: bool, advanced: bool) returns (t: Terminal)
      requires Valid()
      modifies this`all
      ensures Valid() && fresh(t) && all == old(all) + {t} && !Configuring(t.node)
    {
      var node := if passwordCheck then Auth else if advanced then Enable else View;
      t := new Terminal(node);
      all := all + {t};
      assert vtyConfig == 1 ==> exists u :: u in old(all) && u.config == 1;
    }

    /** vty_config_lock: whether the terminal has the lock afterwards. */
    method Lock(t: Terminal) returns (has: int)
      requires t in all
      modifies this`vtyConfig, t`config
      ensures vtyConfig == if old(vtyConfig) == 0 then 1 else old(vtyConfig)
      ensures t.config == (if old(vtyConfig) == 0 then 1 else old(t.config)) && has == t.config
    {
      if vtyConfig == 0 {
        t.config := 1;
        vtyConfig := 1;
      }
      has := t.config;
    }

    /** vty_config_unlock. */
    method Unlock(t: Terminal) returns (has: int)
      requires t in all
      modifies this`vtyConfig, t`config
      ensures var gives := old(vtyConfig == 1 && t.config == 1);
              vtyConfig == (if gives then 0 else old(vtyConfig)) && t.config == if gives then 0 else old(t.config)
      ensures has == t.config
    {
      if vtyConfig == 1 && t.config == 1 {
        t.config := 0;
        vtyConfig := 0;
      }
      has := t.config;
    }

    /** Back to Enable, without the lock. */
    method Leave(t: Terminal)
      requires Valid() && t in all && Configuring(t.node)
      modifies this`vtyConfig, t`config, t`node
      ensures Valid() && t.node == Enable && vtyConfig == 0
    {
      var _ := Unlock(t);
      t.node := Enable;
    }

    /** configure terminal: refused while another terminal has the lock. */
    method Configure(t: Terminal) returns (ok: bool)
      requires Valid() && t in all && t.node == Enable
      modifies this`vtyConfig, t`config, t`node
      ensures Valid() && ok == (old(vtyConfig) == 0) && t.node == if ok then Config else Enable
      ensures !ok ==> exists u :: u in all && u != t && Configuring(u.node)
    {
      var has := Lock(t);
      if has != 0 {
        t.node := Config;
        ok := true;
      } else {
        ok := false;
      }
    }

    /** exit: one level up; out of Config the lock is given back. */
    method LevelUp(t: Terminal)
      requires Valid() && t in all
      modifies this`vtyConfig, t`config, t`node, t`closing
      ensures Valid() && t.node == Outer(old(t.node))
      ensures t.closing == (old(t.closing) || old(t.node) == View || old(t.node) == Enable)
      ensures vtyConfig == if old(t.node) == Config then 0 else old(vtyConfig)
    {
      match t.node
      case View | Enable => t.closing := true;
      case Config => Leave(t);
      case Interface | Zebra | Bgp | Rip | Ripng | Ospf | Ospf6 | Keychain | Masc | Rmap | VtyNode =>
        SetMode(t, Node.Config);
      case BgpVpnv4 | BgpIpv4 | BgpIpv4m | BgpIpv6 => SetMode(t, Bgp);
      case KeychainKey => SetMode(t, Keychain);
      case _ =>
    }

    /** From one configuring node to another. */
    method SetMode(t: Terminal, mode: Node)
      requires Valid() && t in all && Configuring(t.node) && Configuring(mode)
      modifies t`node
      ensures Valid() && t.node == mode
    {
      t.node := mode;
    }

    /** end, and ^Z. */
    method ToEnable(t: Terminal)
      requires Valid() && t in all
      modifies this`vtyConfig, t`config, t`node
      ensures Valid() && t.node == if Configuring(old(t.node)) then Enable else old(t.node)
      ensures vtyConfig == if Configuring(old(t.node)) then 0 else old(vtyConfig)
    {
      if Configuring(t.node) { Leave(t); }
    }

    /** ^C: like end, but not out of the address families of BGP. */
    method Stop(t: Terminal)
      requires Valid() && t in all
      modifies this`vtyConfig, t`config, t`node
      ensures Valid()
      ensures var leaves := Configuring(old(t.node)) && !KeptByStop(old(t.node));
              t.node == (if leaves then Enable else old(t.node)) && vtyConfig == if leaves then 0 else old(vtyConfig)
    {
      if Configuring(t.node) && !KeptByStop(t.node) { Leave(t); }
    }

    /** vty_auth; after three wrong passwords the terminal is closed, or goes back to View. */
    method Authenticate(t: Terminal, right: bool, advanced: bool, secret: bool)
      requires Valid() && t in all && (t.node == Auth || t.node == AuthEnable)
      modifies t`node, t`closing, t`fail
      ensures Valid()
      ensures t.node == AfterPassword(old(t.node), right, advanced, secret, old(t.fail)) && !Configuring(t.node)
      ensures t.closing == (old(t.closing) || (!right && old(t.fail) >= 2 && old(t.node) == Auth))
      ensures t.fail == if right || (old(t.fail) >= 2 && old(t.node) == AuthEnable) then 0 else old(t.fail) + 1
    {
      if right {
        t.fail := 0;
        t.node := if t.node == Auth then if advanced && !secret then Enable else View else Enable;
      } else {
        t.fail := t.fail + 1;
        if t.fail >= 3 {
          if t.node == Auth {
            t.closing := true;
          } else {
            t.fail := 0;
            t.node := View;
          }
        }
      }
    }

    /** vty_close: whatever the terminal was doing, it leaves no lock behind. */
    method Close(t: Terminal)
      requires Valid() && t in all
      modifies this`vtyConfig, this`all, t`config
      ensures Valid() && all == old(all) - {t}
      ensures vtyConfig == if old(t.config) == 1 then 0 else old(vtyConfig)
    {
      ghost var was := all;
      ghost var had := t.config == 1;
      var _ := Unlock(t);
      all := all - {t};
      assert vtyConfig == 1 ==> exists u :: u in was && u.config == 1 && u != t;
    }

    /** One action of one terminal. */
    method Do(t: Terminal, a: Action)
      requires Valid() && t in all && Offered(t.node, a)
      modifies this`vtyConfig, t
      ensures Valid() && all == old(all)
      ensures t.node == NodeAfter(old(t.node), a, old(vtyConfig) == 1, old(t.fail))
    {
      match a
      case ConfigureTerminal => { var ok := Configure(t); }
      case EnableCommand(secret) => { t.node := if secret then AuthEnable else Enable; }
      case Disable => { t.node := View; }
      case EnterMode(mode) => { SetMode(t, mode); }
      case Exit => { LevelUp(t); }
      case End => { ToEnable(t); }
      case EndConfig => { ToEnable(t); }
      case StopInput => { Stop(t); }
      case Password(right, advanced, secret) => { Authenticate(t, right, advanced, secret); }
    }
  }

  /** What happens to the host: a terminal connects, the who-th terminal does something, or it goes away. */
  datatype Event = Connects(passwordCheck: bool, advanced: bool) | Does(who: nat, act: Action) | Leaves(who: nat)

  /** Any interleaving of terminals that connect, act and go away; what a node does not offer, or a terminal that has
      gone would do, is not done. */
  method Interleave(host: Host, events: seq<Event>) returns (terminals: seq<Terminal>)
    requires host.Valid() && host.all == {}
    modifies host
    ensures host.Valid() && forall t :: t in host.all ==> t in terminals
    ensures forall t :: t in terminals ==> fresh(t)
    ensures forall t, u :: t in host.all && u in host.all && Configuring(t.node) && Configuring(u.node) ==> t == u
    ensures host.vtyConfig == 1 <==> exists t :: t in host.all && Configuring(t.node)
  {
    terminals := [];
    for i := 0 to |events|
      invariant host.Valid() && forall t :: t in host.all ==> t in terminals
      invariant forall t :: t in terminals ==> fresh(t)
    {
      match events[i]
      case Connects(passwordCheck, advanced) =>
        var t := host.Connect(passwordCheck, advanced);
        terminals := terminals + [t];
      case Does(who, act) =>
        if who < |terminals| && terminals[who] in host.all && Offered(terminals[who].node, act) {
          host.Do(terminals[who], act);
        }
      case Leaves(who) =>
        if who < |terminals| && terminals[who] in host.all {
          host.Close(terminals[who]);
        }
    }
    forall t, u | t in host.all && u in host.all && Configuring(t.node) && Configuring(u.node) ensures t == u {
      host.MutualExclusion(t, u);
    }
  }
}
